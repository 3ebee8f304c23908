/** ADP manifests: validation, binding of an uploaded artifact, and the merge of a new
    upload into the manifest stored for the release (adp.go). A document has been read
    from YAML and normalised; of a package the four platform fields are set apart. */
module Adp {
  import opened Text
  import opened Market

  /** A YAML value. Of a scalar that is no string: its Go type, how Go prints it, and
      whether it is a positive whole number. */
  datatype Value =
    | Null
    | Str(text: string)
    | Scalar(kind: string, printed: string, positiveInt: bool)
    | List(items: seq<Value>)
    | Map(fields: map<string, Value>)

  type Fields = map<string, Value>

  datatype Package =
    | Plain(value: Value)
    | Spec(rest: Fields, from: Option<Fields>, sha256: Option<Fields>, archive: Option<Fields>,
           platforms: Option<seq<string>>)

  /** All top-level fields but packages, and packages when it is a list. */
  datatype Document = Document(fields: Fields, packages: Option<seq<Package>>)

  const TOP_FIELDS := {"schema", "name", "requires_privilege", "defaults", "env", "hooks", "packages"}
  const PLATFORM_FIELDS := {"from", "sha256", "archive", "platforms"}
  const PACKAGE_FIELDS := {"id", "version", "expose", "needs", "env", "configs", "hooks"} + PLATFORM_FIELDS
  const PROVIDERS := {"apt", "dnf", "pacman", "apk", "zypper", "brew", "winget", "scoop", "choco"}
  const PLATFORM_KEYS := {"linux-x64", "linux-arm64", "macos-x64", "macos-arm64", "windows-x64", "windows-arm64"}
  const FORMATS := {"zip", "tar.gz", "tgz"}
  const PHASES := {"pre", "post", "verify"}
  const RUNNERS := {"exec", "sh", "pwsh", "cmd"}
  const MANAGED_ROOT := "${ADP_HOME}/"

  // --------------------------------------------------------------- accessors

  function FieldOf(fields: Fields, key: string): Option<Value> {
    if key in fields then Some(fields[key]) else None
  }

  function StringField(fields: Fields, key: string): string {
    if key in fields && fields[key].Str? then fields[key].text else ""
  }

  predicate HasMap(fields: Fields, key: string) { key in fields && fields[key].Map? }

  predicate Extension(key: string) { "x-" <= key }

  /** The trimmed strings of a list that are not blank. */
  function Trimmings(items: seq<string>): seq<string> {
    if items == [] then []
    else (if TrimSpace(items[0]) == "" then [] else [TrimSpace(items[0])]) + Trimmings(items[1..])
  }

  function Strings(items: seq<Value>): seq<string> {
    if items == [] then [] else (if items[0].Str? then [items[0].text] else []) + Strings(items[1..])
  }

  /** stringSliceField on a YAML value */
  function StringSlice(fields: Fields, key: string): seq<string> {
    if key in fields && fields[key].List? then Trimmings(Strings(fields[key].items)) else []
  }

  function PlatformList(p: Package): seq<string>
    requires p.Spec?
  {
    if p.platforms.None? then [] else Trimmings(p.platforms.value)
  }

  predicate Provider(key: string) { ToLower(key) in PROVIDERS }

  /** isProviderMappingPackage */
  predicate ProviderMapping(p: Package) {
    && p.Spec? && p.from.None? && p.sha256.None? && p.archive.None? && p.platforms.None?
    && |p.rest| == 1
    && forall key :: key in p.rest ==> key !in PACKAGE_FIELDS && !Provider(key) && !Extension(key)
  }

  lemma OneKey(fields: Fields, a: string, b: string)
    requires |fields| == 1 && a in fields && b in fields
    ensures a == b
  {
    assert |fields.Keys| == 1;
    var others := fields.Keys - {a};
    assert |others| == 0;
    assert b !in others;
  }

  function OnlyKey(fields: Fields): (key: string)
    requires |fields| == 1
    ensures key in fields
  {
    assert fields.Keys != {};
    assert forall a, b :: a in fields && b in fields ==> a == b by {
      forall a, b | a in fields && b in fields ensures a == b { OneKey(fields, a, b); }
    }
    var key :| key in fields;
    key
  }

  /** adpPackageID */
  function PackageId(p: Package): Option<string> {
    match p
    case Plain(Str(text)) =>
      var id := Cut(TrimSpace(text), '@').0;
      if id == "" then None else Some(id)
    case Plain(_) => None
    case Spec(rest, _, _, _, _) =>
      var id := TrimSpace(StringField(rest, "id"));
      if id != "" then Some(id)
      else if ProviderMapping(p) then Some(OnlyKey(rest))
      else None
  }

  // ------------------------------------------------- hooks and managed paths

  predicate NonBlankText(value: Value) { value.Str? && TrimSpace(value.text) != "" }

  /** validateStringEnumList */
  predicate EnumList(value: Value, allowed: set<string>) {
    value.List? && forall item :: item in value.items ==> NonBlankText(item) && ToLower(TrimSpace(item.text)) in allowed
  }

  predicate ValidHookField(key: string, value: Value) {
    if key == "exec" then value.List? && value.items != [] && forall item :: item in value.items ==> NonBlankText(item)
    else if key in RUNNERS then NonBlankText(value)
    else if key == "allow_failure" then value.Scalar? && value.kind == "bool"
    else if key == "timeout" then value.Scalar? && value.positiveInt
    else if key == "env" then
      value.Map? && forall name :: name in value.fields ==> TrimSpace(name) != "" && value.fields[name].Str?
    else if key == "cwd" then value.Str?
    else if key == "platforms" then EnumList(value, PLATFORM_KEYS)
    else if key == "os" then EnumList(value, {"linux", "macos", "windows"})
    else key == "arch" && EnumList(value, {"x64", "arm64"})
  }

  /** validateADPHook: known fields, and exactly one runner. */
  predicate ValidHook(value: Value) {
    && value.Map?
    && (forall key :: key in value.fields ==> ValidHookField(key, value.fields[key]))
    && |RUNNERS * value.fields.Keys| == 1
  }

  /** validateADPHooks */
  predicate ValidHooks(field: Option<Value>) {
    match field
    case None => true
    case Some(Null) => true
    case Some(Map(phases)) =>
      forall phase :: phase in phases ==>
        && phase in PHASES
        && phases[phase].List?
        && forall hook :: hook in phases[phase].items ==> ValidHook(hook)
    case _ => false
  }

  /** path.Clean as far as it matters here: how many leading parent steps and how
      many names remain. */
  function Cleaned(parts: seq<string>, rooted: bool): (nat, nat) {
    if parts == [] then (0, 0)
    else
      var (ups, names) := Cleaned(parts[..|parts| - 1], rooted);
      var part := parts[|parts| - 1];
      if part == "" || part == "." then (ups, names)
      else if part != ".." then (ups, names + 1)
      else if names > 0 then (ups, names - 1)
      else if rooted then (ups, 0)
      else (ups + 1, 0)
  }

  /** The cleaned path is empty or leads above its root. */
  predicate Escapes(path: string) {
    var rooted := path != "" && path[0] == '/';
    var (ups, names) := Cleaned(Split(path, '/'), rooted);
    !rooted && (ups > 0 || names == 0)
  }

  /** validateManagedPaths */
  predicate ValidPaths(field: Option<Value>) {
    match field
    case None => true
    case Some(Null) => true
    case Some(List(items)) =>
      forall item :: item in items ==> item.Str? && MANAGED_ROOT <= item.text && !Escapes(item.text[|MANAGED_ROOT|..])
    case _ => false
  }

  // -------------------------------------------------------------- validation

  predicate ValidMapping(rest: Fields) {
    forall id :: id in rest ==>
      && TrimSpace(id) != ""
      && rest[id].Map?
      && forall provider :: provider in rest[id].fields ==>
           Provider(provider) && (rest[id].fields[provider].Null? || rest[id].fields[provider].Str?)
  }

  predicate ValidPlatforms(field: Option<Fields>) {
    field.Some? ==> forall key :: key in field.value ==> ToLower(key) in PLATFORM_KEYS && field.value[key].Str?
  }

  predicate ValidArchives(field: Option<Fields>) {
    field.Some? ==> forall key :: key in field.value ==>
      && ToLower(key) in PLATFORM_KEYS
      && field.value[key].Map?
      && TrimSpace(StringField(field.value[key].fields, "format")) in FORMATS
  }

  predicate HasPostHook(rest: Fields) {
    && HasMap(rest, "hooks")
    && var hooks := rest["hooks"].fields;
       "post" in hooks && hooks["post"].List? && hooks["post"].items != []
  }

  /** What validateADPPackage asks of the fields that are not per platform. */
  predicate ValidRest(rest: Fields) {
    && (forall key :: key in rest ==> key in PACKAGE_FIELDS || Provider(key) || Extension(key))
    && TrimSpace(StringField(rest, "id")) != ""
    && ValidPaths(FieldOf(rest, "x-adp-managed-paths"))
    && ValidHooks(FieldOf(rest, "hooks"))
  }

  /** What it asks of a package that names download locations. */
  predicate ValidBinary(p: Package)
    requires p.Spec?
  {
    p.from.Some? ==>
      && TrimSpace(StringField(p.rest, "version")) != ""
      && p.sha256.Some?
      && (HasMap(p.rest, "expose") || HasPostHook(p.rest))
      && p.from.value.Keys <= p.sha256.value.Keys
  }

  /** validateADPPackage */
  predicate ValidPackage(p: Package) {
    match p
    case Plain(Str(text)) => TrimSpace(text) != ""
    case Plain(_) => false
    case Spec(rest, from, sha256, archive, _) =>
      if ProviderMapping(p) then ValidMapping(rest)
      else ValidRest(rest) && ValidPlatforms(from) && ValidPlatforms(sha256) && ValidArchives(archive) && ValidBinary(p)
  }

  predicate ValidTop(fields: Fields) {
    && (forall key :: key in fields ==> key in TOP_FIELDS || Extension(key))
    && StringField(fields, "schema") == "0.1"
    && TrimSpace(StringField(fields, "name")) != ""
    && ValidHooks(FieldOf(fields, "hooks"))
  }

  /** Every package has an identifier and no two share one. */
  predicate Keyed(packages: seq<Package>) {
    && (forall i :: 0 <= i < |packages| ==> PackageId(packages[i]).Some?)
    && (forall i, j :: 0 <= i < j < |packages| ==> PackageId(packages[i]) != PackageId(packages[j]))
  }

  predicate Has(packages: seq<Package>, id: string) {
    exists i :: 0 <= i < |packages| && PackageId(packages[i]) == Some(id)
  }

  predicate NeedsMet(p: Package, packages: seq<Package>) {
    p.Spec? ==> forall need :: need in StringSlice(p.rest, "needs") ==> Has(packages, need)
  }

  /** validateADPDocument */
  predicate Valid(doc: Document) {
    && ValidTop(doc.fields)
    && doc.packages.Some? && doc.packages.value != []
    && Keyed(doc.packages.value)
    && (forall i :: 0 <= i < |doc.packages.value| ==> ValidPackage(doc.packages.value[i]))
    && (forall i :: 0 <= i < |doc.packages.value| ==> NeedsMet(doc.packages.value[i], doc.packages.value))
  }

  // ------------------------------------------------------------ merged lists

  predicate Sorted(items: seq<string>) { forall i, j :: 0 <= i < j < |items| ==> LexLess(items[i], items[j]) }

  function Insert(items: seq<string>, s: string): seq<string> {
    if items == [] then [s]
    else if items[0] == s then items
    else if LexLess(s, items[0]) then [s] + items
    else [items[0]] + Insert(items[1..], s)
  }

  function InsertAll(items: seq<string>, more: seq<string>): seq<string> {
    if more == [] then items
    else
      var before := InsertAll(items, more[..|more| - 1]);
      if TrimSpace(more[|more| - 1]) == "" then before else Insert(before, more[|more| - 1])
  }

  /** mergeStringList: the non-blank entries of both lists, sorted, each once. */
  function MergeStrings(left: seq<string>, right: seq<string>): seq<string> {
    InsertAll(InsertAll([], left), right)
  }

  lemma {:induction false} InsertLaws(items: seq<string>, s: string)
    requires Sorted(items)
    ensures Sorted(Insert(items, s))
    ensures forall x :: x in Insert(items, s) <==> x == s || x in items
  {
    if items != [] && items[0] != s && !LexLess(s, items[0]) {
      InsertLaws(items[1..], s);
      LexTotal(s, items[0]);
      var tail, all := Insert(items[1..], s), Insert(items, s);
      forall i, j | 0 <= i < j < |all| ensures LexLess(all[i], all[j]) {
        if i == 0 {
          assert tail[j - 1] in tail;
          if tail[j - 1] != s {
            var k :| 0 <= k < |items| - 1 && items[1..][k] == tail[j - 1];
            assert LexLess(items[0], items[k + 1]);
          }
        }
      }
    } else if items != [] && LexLess(s, items[0]) {
      forall j | 0 < j < |items| ensures LexLess(s, items[j]) {
        LexTransitive(s, items[0], items[j]);
      }
    }
  }

  lemma {:induction false} InsertAllLaws(items: seq<string>, more: seq<string>)
    requires Sorted(items)
    ensures Sorted(InsertAll(items, more))
    ensures forall x :: x in InsertAll(items, more) <==> x in items || (x in more && TrimSpace(x) != "")
  {
    if more != [] {
      var init, last := more[..|more| - 1], more[|more| - 1];
      InsertAllLaws(items, init);
      assert more == init + [last];
      if TrimSpace(last) != "" {
        InsertLaws(InsertAll(items, init), last);
      }
    }
  }

  lemma MergeStringsLaws(left: seq<string>, right: seq<string>)
    ensures Sorted(MergeStrings(left, right))
    ensures forall x :: x in MergeStrings(left, right) <==> (x in left || x in right) && TrimSpace(x) != ""
  {
    InsertAllLaws([], left);
    InsertAllLaws(InsertAll([], left), right);
  }

  /** A sorted list is determined by its elements. */
  lemma {:induction false} SortedUnique(a: seq<string>, b: seq<string>)
    requires Sorted(a) && Sorted(b) && forall x :: x in a <==> x in b
    ensures a == b
  {
    assert a != [] ==> a[0] in b;
    assert b != [] ==> b[0] in a;
    if a != [] {
      assert a[0] in b;
      assert b[0] in a;
      LexTotal(a[0], b[0]);
      assert a[0] == b[0] by {
        var i :| 0 <= i < |b| && b[i] == a[0];
        var j :| 0 <= j < |a| && a[j] == b[0];
      }
      LexTotal(a[0], a[0]);
      forall x ensures x in a[1..] <==> x in b[1..] {
        assert x in a <==> x == a[0] || x in a[1..];
        assert x in b <==> x == b[0] || x in b[1..];
      }
      SortedUnique(a[1..], b[1..]);
    }
  }

  // ------------------------------------------------------------------- merge

  predicate Agree(a: Fields, b: Fields) { forall key :: key in a && key in b ==> a[key] == b[key] }

  /** The loop over one of from, sha256 and archive: nothing when they disagree. */
  function JoinField(prior: Option<Fields>, current: Option<Fields>): Option<Option<Fields>> {
    if current.None? then Some(prior)
    else
      var base := if prior.Some? then prior.value else map[];
      if Agree(base, current.value) then Some(Some(base + current.value)) else None
  }

  /** mergeADPPackage */
  function MergePackage(prior: Package, current: Package): Option<Package> {
    if !prior.Spec? || !current.Spec? then (if prior == current then Some(prior) else None)
    else if prior.rest != current.rest then None
    else
      var from, sha256 := JoinField(prior.from, current.from), JoinField(prior.sha256, current.sha256);
      var archive := JoinField(prior.archive, current.archive);
      if from.None? || sha256.None? || archive.None? then None
      else Some(Spec(prior.rest, from.value, sha256.value, archive.value,
                     Some(MergeStrings(PlatformList(prior), PlatformList(current)))))
  }

  /** The position the index map gives an identifier: its last one. */
  function IndexOf(packages: seq<Package>, id: string): (index: Option<nat>)
    ensures index.Some? ==> index.value < |packages| && PackageId(packages[index.value]) == Some(id)
    ensures index.None? ==> !Has(packages, id)
  {
    if packages == [] then None
    else if PackageId(packages[|packages| - 1]) == Some(id) then Some(|packages| - 1)
    else
      var earlier := IndexOf(packages[..|packages| - 1], id);
      assert forall i :: 0 <= i < |packages| - 1 ==> packages[..|packages| - 1][i] == packages[i];
      earlier
  }

  /** Merges one package of the current document; the index was built from original. */
  function MergeOne(original: seq<Package>, merged: seq<Package>, current: Package): (next: Option<seq<Package>>)
    requires |original| <= |merged|
    ensures next.Some? ==> |merged| <= |next.value|
  {
    var id := PackageId(current);
    if id.None? then None
    else
      var index := IndexOf(original, id.value);
      if index.None? then Some(merged + [current])
      else
        var p := MergePackage(merged[index.value], current);
        if p.None? then None else Some(merged[index.value := p.value])
  }

  function MergeAll(original: seq<Package>, current: seq<Package>): (merged: Option<seq<Package>>)
    ensures merged.Some? ==> |original| <= |merged.value|
  {
    if current == [] then Some(original)
    else
      var before := MergeAll(original, current[..|current| - 1]);
      if before.None? then None else MergeOne(original, before.value, current[|current| - 1])
  }

  predicate AllNamed(packages: seq<Package>) { forall i :: 0 <= i < |packages| ==> PackageId(packages[i]).Some? }

  /** mergeADPDocuments; nothing stands for its error. */
  function Merge(prior: Document, current: Document): Option<Document> {
    if prior.packages.None? || current.packages.None? then None
    else if !Agree(prior.fields, current.fields) || !AllNamed(prior.packages.value) then None
    else
      var packages := MergeAll(prior.packages.value, current.packages.value);
      if packages.None? then None else Some(Document(prior.fields + current.fields, packages))
  }

  // -------------------------------------------------------------------- bind

  /** artifactBindingRole; a list or map prints as text no asset role is spelled like. */
  function BindingRole(p: Package): string {
    if !p.Spec? || "x-zenmind-artifact" !in p.rest then ""
    else match p.rest["x-zenmind-artifact"]
      case Null => ""
      case Str(text) => TrimSpace(text)
      case Scalar(_, printed, _) => TrimSpace(printed)
      case List(_) => "["
      case Map(_) => "["
  }

  /** What one upload contributes: the platform keys it serves, and where. */
  datatype Upload = Upload(role: string, keys: seq<string>, url: string, sha256: string, format: string)

  function ArchiveSpec(upload: Upload): Value {
    Map(map["format" := Str(upload.format), "strip" := Scalar("int", "0", false)])
  }

  function SetKeys(field: Option<Fields>, keys: seq<string>, value: Value): Fields {
    (if field.Some? then field.value else map[]) + map key | key in keys :: value
  }

  function BindPackage(p: Package, upload: Upload): Package
    requires p.Spec?
  {
    Spec(p.rest,
         Some(SetKeys(p.from, upload.keys, Str(upload.url))),
         Some(SetKeys(p.sha256, upload.keys, Str(upload.sha256))),
         Some(SetKeys(p.archive, upload.keys, ArchiveSpec(upload))),
         Some(MergeStrings(PlatformList(p), upload.keys)))
  }

  /** The positions of packages bound to a role. */
  function Bound(packages: seq<Package>, role: string): seq<nat> {
    if packages == [] then []
    else
      var n := |packages| - 1;
      Bound(packages[..n], role) + if packages[n].Spec? && BindingRole(packages[n]) == role then [n] else []
  }

  lemma {:induction false} BoundPositions(packages: seq<Package>, role: string)
    ensures forall i ::
      i in Bound(packages, role) <==> 0 <= i < |packages| && packages[i].Spec? && BindingRole(packages[i]) == role
  {
    if packages != [] {
      BoundPositions(packages[..|packages| - 1], role);
    }
  }

  /** bindADPArtifact */
  function Bind(doc: Document, upload: Upload): Option<Document> {
    if doc.packages.None? then None
    else
      var bound := Bound(doc.packages.value, upload.role);
      BoundPositions(doc.packages.value, upload.role);
      if |bound| != 1 || upload.keys == [] then None
      else
        assert bound[0] in bound;
        Some(doc.(packages := Some(doc.packages.value[bound[0] := BindPackage(doc.packages.value[bound[0]], upload)])))
  }

  /** adpHasArtifactBinding */
  predicate HasBinding(doc: Document) {
    doc.packages.Some? && exists i :: 0 <= i < |doc.packages.value| && BindingRole(doc.packages.value[i]) != ""
  }

  /** marketPlatformToADPKeys */
  function PlatformKeysOf(platform: string): (keys: seq<string>)
    ensures forall key :: key in keys ==> key in PLATFORM_KEYS
  {
    KeysOfSpelling(SanitizePlatform(platform))
  }

  function KeysOfSpelling(platform: string): (keys: seq<string>)
    ensures forall key :: key in keys ==> key in PLATFORM_KEYS
  {
    match platform
    case "universal" => ["linux-x64", "linux-arm64", "macos-x64", "macos-arm64", "windows-x64", "windows-arm64"]
    case "darwin-amd64" => ["macos-x64"]
    case "macos-amd64" => ["macos-x64"]
    case "darwin-x64" => ["macos-x64"]
    case "macos-x64" => ["macos-x64"]
    case "darwin-arm64" => ["macos-arm64"]
    case "macos-arm64" => ["macos-arm64"]
    case "linux-amd64" => ["linux-x64"]
    case "linux-x64" => ["linux-x64"]
    case "linux-arm64" => ["linux-arm64"]
    case "windows-amd64" => ["windows-x64"]
    case "windows-x64" => ["windows-x64"]
    case "windows-arm64" => ["windows-arm64"]
    case _ => []
  }

  // ---------------------------------------------------------------- pipeline

  /** The manifest of this upload, once its artifact is bound. */
  function Prepared(doc: Document, upload: Option<Upload>): Option<Document> {
    if upload.Some? then Bind(doc, upload.value) else if HasBinding(doc) then None else Some(doc)
  }

  /** normalizePublishADP between parsing and printing: bind, validate, merge with
      the manifest stored for the release, validate again. */
  function Normalize(doc: Document, stored: Option<Document>, upload: Option<Upload>): Option<Document> {
    var current := Prepared(doc, upload);
    if current.None? || !Valid(current.value) then None
    else
      var merged := if stored.Some? then Merge(stored.value, current.value) else current;
      if merged.None? || !Valid(merged.value) then None else merged
  }
}

/** The entities of the market: requests, table rows, and the pure conversions
    between them. JSON and YAML columns are kept as their text or as the value they
    encode; timestamps are opaque text. */
module Market {
  import opened Text
  import opened SemVer

  datatype ItemType = Skill | Plugin | Agent | SandboxImage | Pet | CliTool | WebsiteApp | SoftwarePackage

  datatype ItemKey = ItemKey(itemType: ItemType, id: string)

  datatype Status = Pending | Approved | Rejected

  datatype IncludedSkill = IncludedSkill(id: string, optional: bool, sortOrder: int)

  datatype SkillSpec = SkillSpec(
    kind: string, category: string, scenario: string, level: string, packageMode: string,
    featured: bool, included: seq<IncludedSkill>)

  datatype PlatformSpec = PlatformSpec(
    key: string, os: string, arch: string, description: string, readme: string, minDesktop: string,
    metadata: map<string, string>, dependencies: string, protocol: string)

  datatype Request = Request(
    itemType: ItemType, id: string, name: string, version: string, description: string, readme: string,
    tags: seq<string>, minDesktop: string, sandboxKind: string, websiteKind: string, platformKey: string,
    metadata: map<string, string>, dependencies: string, protocol: string, platform: Option<PlatformSpec>,
    skill: Option<SkillSpec>, adpYaml: string, reviewStatus: string, creatorId: string, checks: string)

  datatype Artifact = Artifact(
    platformKey: string, archiveType: string, role: string, fileName: string, path: string, url: string,
    sha256: string, integrity: string, size: nat, contents: string)

  // -------------------------------------------------------------- table rows

  /** The item columns that show a release to the public. */
  datatype Payload = Payload(
    name: string, description: string, readme: string, minDesktop: string, sandboxKind: string,
    websiteKind: string, metadata: map<string, string>, dependencies: string, protocol: string, adpYaml: string)

  datatype Review = Review(status: Status, note: string, reviewedAt: string, reviewedBy: string)

  datatype ItemRow = ItemRow(
    payload: Payload, latest: string, creator: string, review: Review, published: bool,
    submittedAt: string, publishedAt: string, updatedAt: string, views: nat)

  datatype Content = Content(
    description: string, readme: string, metadata: map<string, string>, dependencies: string,
    protocol: string, adpYaml: string)

  datatype VersionRow = VersionRow(
    content: Content, creator: string, snapshot: Option<Request>, checks: string, review: Review,
    published: bool, submittedAt: string, publishedAt: string)

  datatype PlatformRow = PlatformRow(spec: PlatformSpec, published: bool, createdAt: string, updatedAt: string)

  datatype ArtifactRow = ArtifactRow(artifact: Artifact, createdAt: string)

  datatype ProfileRow = ProfileRow(
    kind: string, category: string, scenario: string, level: string, packageMode: string, featured: bool)

  datatype IncludedRow = IncludedRow(optional: bool, sortOrder: int)

  /** The tags, skill_profiles and skill_package_items rows of one item. */
  datatype Taxonomy = Taxonomy(tags: set<string>, profile: Option<ProfileRow>, included: map<string, IncludedRow>)

  datatype Event = Event(
    version: string, action: string, from: Option<Status>, to: Status, actor: string, note: string, at: string)

  /** All rows of one (type, id). Every statement of the release operations is keyed by it. */
  datatype Tables = Tables(
    item: Option<ItemRow>, versions: map<string, VersionRow>,
    platforms: map<(string, string), PlatformRow>, artifacts: map<(string, string), ArtifactRow>,
    taxonomy: Taxonomy, events: seq<Event>)

  const NO_TAXONOMY := Taxonomy({}, None, map[])
  const NO_ROWS := Tables(None, map[], map[], map[], NO_TAXONOMY, [])

  // ------------------------------------------------------------- conversions

  function StatusText(status: Status): string {
    match status case Pending => "pending" case Approved => "approved" case Rejected => "rejected"
  }

  /** normalizeReviewStatus */
  function NormalizeStatus(text: string, fallback: Option<Status>): Option<Status> {
    var text := TrimSpace(ToLower(text));
    if text == "pending" then Some(Pending)
    else if text == "approved" then Some(Approved)
    else if text == "rejected" then Some(Rejected)
    else fallback
  }

  /** storageMetadata drops every spelling of the key creatorId. */
  function StorageMetadata(metadata: map<string, string>): map<string, string> {
    map key | key in metadata && Fold(TrimSpace(key)) != "creatorid" :: metadata[key]
  }

  lemma CreatorKeyFolded()
    ensures Fold("creatorId") == "creatorid"
  {
    var key, folded := "creatorId", "creatorid";
    forall i | 0 <= i < 9 ensures Fold(key)[i] == folded[i] {
      assert Fold(key)[i] == FoldChar(key[i]);
    }
  }

  function PayloadOf(req: Request): Payload {
    Payload(req.name, req.description, req.readme, req.minDesktop, req.sandboxKind, req.websiteKind,
            StorageMetadata(req.metadata), req.dependencies, req.protocol, TrimSpace(req.adpYaml))
  }

  function ContentOf(req: Request): Content {
    Content(req.description, req.readme, StorageMetadata(req.metadata), req.dependencies, req.protocol,
            TrimSpace(req.adpYaml))
  }

  function PlatformOf(req: Request): PlatformSpec {
    if req.platform.Some? then req.platform.value
    else PlatformSpec(req.platformKey, "", "", "", "", "", map[], "[]", "{}")
  }

  function KeyOf(req: Request): ItemKey { ItemKey(req.itemType, req.id) }

  /** What snapshot_json keeps of a request: creator and checks carry no JSON. */
  function SnapshotOf(req: Request): Request { req.(creatorId := "", checks := "") }

  const DEFAULT_SKILL := SkillSpec("single", "other", "productivity", "beginner", "", false, [])

  function TagsOf(tags: seq<string>): set<string> {
    set tag | tag in tags && TrimSpace(tag) != "" :: TrimSpace(tag)
  }

  function IncludedRows(items: seq<IncludedSkill>): map<string, IncludedRow> {
    if items == [] then map[]
    else
      var last := items[|items| - 1];
      var sortOrder := if last.sortOrder == 0 then |items| else last.sortOrder;
      IncludedRows(items[..|items| - 1])[last.id := IncludedRow(last.optional, sortOrder)]
  }

  function ProfileOf(spec: SkillSpec): ProfileRow {
    ProfileRow(spec.kind, spec.category, spec.scenario, spec.level, spec.packageMode, spec.featured)
  }

  /** replaceSubmissionTaxonomyTx: only skills own profile rows. */
  function ReplaceTaxonomy(prior: Taxonomy, req: Request): Taxonomy {
    if req.itemType != Skill then prior.(tags := TagsOf(req.tags))
    else
      var spec := if req.skill.Some? then req.skill.value else DEFAULT_SKILL;
      Taxonomy(TagsOf(req.tags), Some(ProfileOf(spec)),
               if spec.kind == "package" then IncludedRows(spec.included) else map[])
  }

  /** The taxonomy rows a request stands for. */
  function TaxonomyOf(req: Request): Taxonomy { ReplaceTaxonomy(NO_TAXONOMY, req) }

  // ------------------------------------------------------- platform spelling

  predicate PlatformChar(c: char) {
    'a' <= c <= 'z' || IsDigit(c) || c == '.' || c == '_' || c == '-'
  }

  /** By code point: letters, digits, dash, dot and underscore. */
  lemma PlatformChars(c: char)
    ensures var n := c as int;
      PlatformChar(c) <==> 97 <= n <= 122 || 48 <= n <= 57 || n == 45 || n == 46 || n == 95
  {
  }

  /** Replaces each run of foreign characters by one dash; a space has become a
      dash of its own before that. */
  function Dashed(s: string, inRun: bool): string {
    if s == "" then ""
    else if PlatformChar(s[0]) then [s[0]] + Dashed(s[1..], false)
    else if s[0] == ' ' then "-" + Dashed(s[1..], false)
    else if inRun then Dashed(s[1..], true)
    else "-" + Dashed(s[1..], true)
  }

  function TrimDashLeft(s: string): (r: string)
    ensures r == "" || r[0] != '-'
    ensures |r| <= |s| && r == s[|s| - |r|..]
  {
    if s != "" && s[0] == '-' then TrimDashLeft(s[1..]) else s
  }

  function TrimDashRight(s: string): (r: string)
    ensures r == "" || r[|r| - 1] != '-'
    ensures r <= s
  {
    if s != "" && s[|s| - 1] == '-' then TrimDashRight(s[..|s| - 1]) else s
  }

  /** sanitizePlatform */
  function SanitizePlatform(value: string): string {
    TrimDashRight(TrimDashLeft(Dashed(TrimSpace(ToLower(value)), false)))
  }

  /** A platform as the server keys it: universal where none is named. */
  function CleanKey(chosen: string): string {
    var clean := SanitizePlatform(chosen);
    if clean == "" then "universal" else clean
  }

  predicate PlatformText(s: string) {
    && (forall c :: c in s ==> PlatformChar(c))
    && (s != "" ==> s[0] != '-' && s[|s| - 1] != '-')
  }

  lemma {:induction false} DashedChars(s: string, inRun: bool)
    ensures forall c :: c in Dashed(s, inRun) ==> PlatformChar(c)
  {
    if s != "" {
      DashedChars(s[1..], false);
      DashedChars(s[1..], true);
    }
  }

  lemma {:induction false} PlatformTextIsLower(s: string)
    requires forall c :: c in s ==> PlatformChar(c)
    ensures ToLower(s) == s && Dashed(s, false) == s
  {
    if s != "" {
      assert s == [s[0]] + s[1..] && s[0] in s;
      PlatformTextIsLower(s[1..]);
    }
  }

  /** Every space replaced by a dash. */
  function SpacesReplaced(s: string): (r: string)
    ensures |r| == |s| && forall i :: 0 <= i < |s| ==> r[i] == if s[i] == ' ' then '-' else s[i]
  {
    seq(|s|, i requires 0 <= i < |s| => if s[i] == ' ' then '-' else s[i])
  }

  /** How many foreign characters a text begins with. */
  function ForeignRun(s: string): (n: nat)
    ensures n <= |s| && (n < |s| ==> PlatformChar(s[n]))
    ensures forall i :: 0 <= i < n ==> !PlatformChar(s[i])
  {
    if s == "" || PlatformChar(s[0]) then 0 else 1 + ForeignRun(s[1..])
  }

  /** Every longest run of foreign characters replaced by one dash. */
  function RunsReplaced(s: string): string
    decreases |s|
  {
    if s == "" then ""
    else if PlatformChar(s[0]) then [s[0]] + RunsReplaced(s[1..])
    else "-" + RunsReplaced(s[ForeignRun(s)..])
  }

  /** One pass does the work of both replacements. */
  lemma {:induction false} DashedIs(s: string)
    ensures Dashed(s, false) == RunsReplaced(SpacesReplaced(s))
    ensures Dashed(s, true) == RunsReplaced(SpacesReplaced(s)[ForeignRun(SpacesReplaced(s))..])
    decreases |s|
  {
    if s != "" {
      var spaced := SpacesReplaced(s);
      assert spaced[1..] == SpacesReplaced(s[1..]);
      DashedIs(s[1..]);
      if !PlatformChar(spaced[0]) {
        assert spaced[ForeignRun(spaced)..] == spaced[1..][ForeignRun(spaced[1..])..];
      }
    }
  }

  predicate Dashes(s: string) { forall i :: 0 <= i < |s| ==> s[i] == '-' }

  lemma {:induction false} DashesLeft(s: string, i: nat)
    requires i < |s| - |TrimDashLeft(s)|
    ensures s[i] == '-'
  {
    if i > 0 {
      DashesLeft(s[1..], i - 1);
    }
  }

  lemma {:induction false} DashesRight(s: string, i: nat)
    requires |TrimDashRight(s)| <= i < |s|
    ensures s[i] == '-'
  {
    if i < |s| - 1 {
      DashesRight(s[..|s| - 1], i);
    }
  }

  lemma LeftCut(s: string) returns (before: string)
    ensures s == before + TrimDashLeft(s) && Dashes(before)
  {
    var n := |s| - |TrimDashLeft(s)|;
    before := s[..n];
    forall i | 0 <= i < n ensures s[i] == '-' {
      DashesLeft(s, i);
    }
    Halves(s, n);
  }

  lemma RightCut(s: string) returns (after: string)
    ensures s == TrimDashRight(s) + after && Dashes(after)
  {
    var n := |TrimDashRight(s)|;
    after := s[n..];
    forall i | n <= i < |s| ensures s[i] == '-' {
      DashesRight(s, i);
    }
    Halves(s, n);
  }

  lemma Halves(s: string, n: nat)
    requires n <= |s|
    ensures s == s[..n] + s[n..]
  {
  }

  lemma DashesTrimmed(dashed: string) returns (before: string, after: string)
    ensures dashed == before + TrimDashRight(TrimDashLeft(dashed)) + after && Dashes(before) && Dashes(after)
  {
    before := LeftCut(dashed);
    after := RightCut(TrimDashLeft(dashed));
    Regroup(before, TrimDashRight(TrimDashLeft(dashed)), after);
  }

  lemma Regroup(a: string, b: string, c: string)
    ensures a + (b + c) == a + b + c
  {
  }

  /** The sanitiser's result is the text in lower case, each space and each run of foreign
      characters replaced by a dash, without the dashes at its ends. */
  lemma SanitizePlatformIs(value: string) returns (before: string, after: string)
    ensures RunsReplaced(SpacesReplaced(TrimSpace(ToLower(value)))) == before + SanitizePlatform(value) + after
    ensures Dashes(before) && Dashes(after) && PlatformText(SanitizePlatform(value))
  {
    DashedIs(TrimSpace(ToLower(value)));
    before, after := DashesTrimmed(Dashed(TrimSpace(ToLower(value)), false));
    SanitizePlatformNormalises(value);
  }

  /** The sanitiser's results are its fixed points: sanitising twice, once in the
      handler and once in the store, changes nothing. */
  lemma SanitizePlatformNormalises(value: string)
    ensures PlatformText(SanitizePlatform(value))
    ensures PlatformText(value) ==> SanitizePlatform(value) == value
    ensures SanitizePlatform(SanitizePlatform(value)) == SanitizePlatform(value)
  {
    DashedChars(TrimSpace(ToLower(value)), false);
    var clean := SanitizePlatform(value);
    assert PlatformText(clean);
    PlatformTextFixed(clean);
    if PlatformText(value) {
      PlatformTextFixed(value);
    }
  }

  lemma PlatformTextFixed(s: string)
    requires PlatformText(s)
    ensures SanitizePlatform(s) == s
  {
    PlatformTextIsLower(s);
    assert TrimSpace(s) == s by {
      if s != "" {
        assert s[0] in s && s[|s| - 1] in s;
        assert PlatformChar(s[0]) && PlatformChar(s[|s| - 1]);
      }
      TrimmedIsFixed(s);
    }
    assert TrimDashLeft(s) == s && TrimDashRight(s) == s;
  }

  // ------------------------------------------------------------------- reads

  predicate IsPublished(t: Tables) { t.item.Some? && t.item.value.published }

  /** The condition every public read puts on the item row. */
  predicate Live(t: Tables) { IsPublished(t) && t.item.value.review.status == Approved }

  predicate Visible(row: VersionRow) { row.published && row.review.status == Approved }

  function PublishedVersions(t: Tables): set<string> {
    set v | v in t.versions && Visible(t.versions[v])
  }

  /** EnsurePublishedVersion */
  predicate ReadableVersion(t: Tables, version: string) {
    Canonical(version) in PublishedVersions(t) && Live(t)
  }

  /** getArtifact */
  function GetArtifact(t: Tables, version: string, platform: string): Option<Artifact> {
    if (version, platform) in t.artifacts && version in PublishedVersions(t) && Live(t)
    then Some(t.artifacts[(version, platform)].artifact) else None
  }

  /** getPlatform */
  function GetPlatform(t: Tables, version: string, platform: string): Option<PlatformSpec> {
    if && (version, platform) in t.platforms && t.platforms[(version, platform)].published
       && version in PublishedVersions(t) && Live(t)
    then Some(t.platforms[(version, platform)].spec) else None
  }

  /** GetADPYAML: an empty version asks for the live manifest. */
  function GetADPYAML(t: Tables, version: string): Option<string> {
    var version := Canonical(version);
    if !Live(t) then None
    else if version == "" then NonBlank(t.item.value.payload.adpYaml)
    else if version in PublishedVersions(t) then NonBlank(t.versions[version].content.adpYaml)
    else None
  }

  function NonBlank(text: string): Option<string> { if TrimSpace(text) == "" then None else Some(text) }

  /** GetPublishADPYAML: the manifest of a release in progress. */
  function GetPublishADPYAML(t: Tables, version: string): Option<string> {
    var version := Canonical(version);
    if version == "" || version !in t.versions then None else NonBlank(t.versions[version].content.adpYaml)
  }
}

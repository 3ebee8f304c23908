/** What each accepted call leaves in the rows of its item, and why a refused one was
    refused, said over the arguments of the call alone. */
module Effects {
  import opened Text
  import opened SemVer
  import opened Market
  import opened Release
  import opened Consistency

  // ---------------------------------------------------------------- spelling

  /** A metadata key that names the creator, in any case and with blanks around it. */
  predicate NamesCreator(key: string) { SameWord(TrimSpace(key), "creatorId") }

  lemma CreatorKeyFolds(key: string)
    ensures Fold(TrimSpace(key)) == "creatorid" <==> NamesCreator(key)
  {
    FoldsAlike(TrimSpace(key), "creatorId");
    CreatorKeyFolded();
  }

  /** What is stored of the metadata sent: all but the creator. */
  ghost predicate KeepsMetadata(stored: map<string, string>, sent: map<string, string>) {
    && (forall key :: key in stored <==> key in sent && !NamesCreator(key))
    && (forall key :: key in stored ==> stored[key] == sent[key])
  }

  lemma MetadataKept(metadata: map<string, string>)
    ensures KeepsMetadata(StorageMetadata(metadata), metadata)
  {
    forall key ensures key in StorageMetadata(metadata) <==> key in metadata && !NamesCreator(key) {
      CreatorKeyFolds(key);
    }
  }

  /** The status a text asks for, in any case and with blanks around it. */
  predicate AsksFor(text: string, status: Status) { TrimSpace(ToLower(text)) == Word(status) }

  function Word(status: Status): string {
    match status
    case Approved => "approved"
    case Rejected => "rejected"
    case Pending => "pending"
  }

  /** A text that asks for no status asks for approval. */
  ghost predicate Settles(text: string, status: Status) {
    AsksFor(text, status) || (status == Approved && forall other :: !AsksFor(text, other))
  }

  // -------------------------------------------------------------- submissions

  /** The columns of a version that repeat the request. */
  ghost predicate Describes(content: Content, req: Request) {
    && content.description == req.description && content.readme == req.readme
    && content.dependencies == req.dependencies && content.protocol == req.protocol
    && content.adpYaml == TrimSpace(req.adpYaml)
    && KeepsMetadata(content.metadata, req.metadata)
  }

  /** The columns of an item that repeat the request. */
  ghost predicate Shows(payload: Payload, req: Request) {
    && payload.name == req.name && payload.description == req.description && payload.readme == req.readme
    && payload.minDesktop == req.minDesktop && payload.sandboxKind == req.sandboxKind
    && payload.websiteKind == req.websiteKind
    && payload.dependencies == req.dependencies && payload.protocol == req.protocol
    && payload.adpYaml == TrimSpace(req.adpYaml)
    && KeepsMetadata(payload.metadata, req.metadata)
  }

  /** A version approved on entry is the admin's; any other waits without a reviewer. */
  predicate EntryReview(review: Review, now: string) {
    && review.note == ""
    && (if review.status == Approved then review.reviewedAt == now && review.reviewedBy == "admin"
        else review.reviewedAt == "" && review.reviewedBy == "")
  }

  lemma StandingIsSettled(req: Request)
    ensures Settles(req.reviewStatus, SubmittedStatus(req))
  {
  }

  /** An accepted submission leaves its version described by the request, in the standing
      it asked for, with the time of its first submission kept. */
  lemma SubmissionWritesVersion(t: Tables, req: Request, artifact: Option<Artifact>, now: string)
    requires Publish(t, req, artifact, now).Done?
    ensures var next, version := Publish(t, req, artifact, now).tables, Canonical(req.version);
      && version in next.versions && next.versions == t.versions[version := next.versions[version]]
      && var row := next.versions[version];
         && Describes(row.content, req) && row.creator == TrimSpace(req.creatorId) && row.checks == req.checks
         && Settles(req.reviewStatus, row.review.status) && EntryReview(row.review, now)
         && (row.published <==> row.review.status == Approved)
         && row.submittedAt == now
         && row.publishedAt == if version in t.versions then t.versions[version].publishedAt else now
  {
    MetadataKept(req.metadata);
    StandingIsSettled(req);
  }

  /** It adds the platform it names, as specified, or blank where it specifies none. */
  lemma SubmissionWritesPlatform(t: Tables, req: Request, artifact: Option<Artifact>, now: string)
    requires Publish(t, req, artifact, now).Done?
    ensures var next, version := Publish(t, req, artifact, now).tables, Canonical(req.version);
      var key := if req.platform.Some? then req.platform.value.key else req.platformKey;
      && (version, key) in next.platforms
        && next.platforms == t.platforms[(version, key) := next.platforms[(version, key)]]
      && var row := next.platforms[(version, key)];
         && (req.platform.Some? ==> row.spec == req.platform.value)
         && (req.platform.None? ==> row.spec == PlatformSpec(key, "", "", "", "", "", map[], "[]", "{}"))
         && (row.published <==> next.versions[version].review.status == Approved)
         && row.updatedAt == now
         && row.createdAt == if (version, key) in t.platforms then t.platforms[(version, key)].createdAt else now
  {
  }

  /** It stores the file sent with it under its platform, and touches no other. */
  lemma SubmissionWritesFile(t: Tables, req: Request, artifact: Option<Artifact>, now: string)
    requires Publish(t, req, artifact, now).Done?
    ensures Publish(t, req, artifact, now).tables.artifacts
      == if artifact.None? then t.artifacts
         else t.artifacts[(Canonical(req.version), artifact.value.platformKey) := ArtifactRow(artifact.value, now)]
  {
  }

  /** It leaves a published item alone, and otherwise makes the item show the request. */
  lemma SubmissionWritesItem(t: Tables, req: Request, artifact: Option<Artifact>, now: string)
    requires Publish(t, req, artifact, now).Done?
    ensures var next, version := Publish(t, req, artifact, now).tables, Canonical(req.version);
      if t.item.Some? && t.item.value.published then next.item == t.item && next.taxonomy == t.taxonomy
      else
        && next.item.Some? && Shows(next.item.value.payload, req)
        && next.item.value.latest == version && next.item.value.creator == TrimSpace(req.creatorId)
        && next.item.value.review == next.versions[version].review
        && next.item.value.published == next.versions[version].published
        && next.item.value.submittedAt == now && next.item.value.updatedAt == now
        && next.item.value.publishedAt == (if t.item.Some? then t.item.value.publishedAt else now)
        && next.item.value.views == (if t.item.Some? then t.item.value.views else 0)
  {
    MetadataKept(req.metadata);
  }

  /** It adds one event, which tells the standing of the item before and of the version after. */
  lemma SubmissionWritesEvent(t: Tables, req: Request, artifact: Option<Artifact>, now: string)
    requires Publish(t, req, artifact, now).Done?
    ensures var next, version := Publish(t, req, artifact, now).tables, Canonical(req.version);
      && |next.events| == |t.events| + 1 && next.events[..|t.events|] == t.events
      && var event := next.events[|t.events|];
         && event.version == version && event.action == "submitted" && event.note == "" && event.at == now
         && event.actor == TrimSpace(req.creatorId) && event.to == next.versions[version].review.status
         && event.from == if t.item.Some? then Some(t.item.value.review.status) else None
  {
  }

  // ------------------------------------------------------------------ taxonomy

  /** The position of the last included skill with this identifier. */
  ghost predicate LastOf(items: seq<IncludedSkill>, i: nat) {
    i < |items| && forall j :: i < j < |items| ==> items[j].id != items[i].id
  }

  ghost predicate TagsShown(tags: set<string>, raw: seq<string>) {
    && (forall tag :: tag in tags ==> tag != "" && exists i :: 0 <= i < |raw| && TrimSpace(raw[i]) == tag)
    && (forall i :: 0 <= i < |raw| && TrimSpace(raw[i]) != "" ==> TrimSpace(raw[i]) in tags)
  }

  predicate ProfileShown(row: ProfileRow, spec: SkillSpec) {
    && row.kind == spec.kind && row.category == spec.category && row.scenario == spec.scenario
    && row.level == spec.level && row.packageMode == spec.packageMode && row.featured == spec.featured
  }

  predicate IncludedAt(rows: map<string, IncludedRow>, item: IncludedSkill, place: nat) {
    && item.id in rows && rows[item.id].optional == item.optional
    && rows[item.id].sortOrder == if item.sortOrder == 0 then place else item.sortOrder
  }

  predicate Listed(items: seq<IncludedSkill>, id: string) { exists i :: 0 <= i < |items| && items[i].id == id }

  /** Each included skill as it came last, numbered by its place unless it brings a number. */
  ghost predicate IncludedShown(rows: map<string, IncludedRow>, items: seq<IncludedSkill>) {
    && (forall id :: id in rows ==> Listed(items, id))
    && (forall i :: 0 <= i < |items| && LastOf(items, i) ==> IncludedAt(rows, items[i], i + 1))
  }

  lemma {:induction false} IncludedAreListed(items: seq<IncludedSkill>, id: string)
    requires id in IncludedRows(items)
    ensures Listed(items, id)
  {
    var n := |items| - 1;
    if items[n].id == id {
      assert Listed(items, id);
    } else {
      IncludedAreListed(items[..n], id);
      var i :| 0 <= i < n && items[..n][i].id == id;
      assert items[i].id == id;
    }
  }

  lemma {:induction false} LastIsIncluded(items: seq<IncludedSkill>, i: nat)
    requires LastOf(items, i)
    ensures IncludedAt(IncludedRows(items), items[i], i + 1)
  {
    var n := |items| - 1;
    if i < n {
      assert items[n].id != items[i].id;
      assert items[..n][i] == items[i];
      LastIsIncluded(items[..n], i);
    }
  }

  lemma IncludedAre(items: seq<IncludedSkill>)
    ensures IncludedShown(IncludedRows(items), items)
  {
    forall id | id in IncludedRows(items) ensures Listed(items, id) {
      IncludedAreListed(items, id);
    }
    forall i | 0 <= i < |items| && LastOf(items, i) ensures IncludedAt(IncludedRows(items), items[i], i + 1) {
      LastIsIncluded(items, i);
    }
  }

  const UNSPECIFIED := SkillSpec("single", "other", "productivity", "beginner", "", false, [])

  /** What a submission writes of tags, profile and included skills; the last two belong
      to skills only. */
  ghost predicate TaxonomyShown(taxonomy: Taxonomy, prior: Taxonomy, req: Request) {
    && TagsShown(taxonomy.tags, req.tags)
    && (if req.itemType != Skill then taxonomy.profile == prior.profile && taxonomy.included == prior.included
        else
          var spec := if req.skill.Some? then req.skill.value else UNSPECIFIED;
          && taxonomy.profile.Some? && ProfileShown(taxonomy.profile.value, spec)
          && (if spec.kind == "package" then IncludedShown(taxonomy.included, spec.included)
              else taxonomy.included == map[]))
  }

  lemma TaxonomyIsShown(prior: Taxonomy, req: Request)
    ensures TaxonomyShown(ReplaceTaxonomy(prior, req), prior, req)
  {
    if req.skill.Some? {
      IncludedAre(req.skill.value.included);
    }
  }

  lemma SubmissionWritesTaxonomy(t: Tables, req: Request, artifact: Option<Artifact>, now: string)
    requires Publish(t, req, artifact, now).Done? && !(t.item.Some? && t.item.value.published)
    ensures TaxonomyShown(Publish(t, req, artifact, now).tables.taxonomy, t.taxonomy, req)
  {
    var canonical := req.(version := Canonical(req.version));
    TaxonomyIsShown(t.taxonomy, canonical);
  }

  // ----------------------------------------------------------------- refusals

  /** A version other than the one submitted waits for review, or it waits for another creator. */
  ghost predicate Waiting(t: Tables, version: string, creator: string) {
    exists v :: v in t.versions && t.versions[v].review.status == Pending
                && (Canonical(v) != version || Differ(t.versions[v].creator, creator))
  }

  predicate Differ(known: string, claimed: string) { known != claimed && known != "" && claimed != "" }

  ghost predicate SomethingPending(t: Tables) { exists v :: v in t.versions && t.versions[v].review.status == Pending }

  /** The release fails to be newer than the published one; texts that are no versions never are. */
  predicate NotNewer(t: Tables, version: string) {
    && t.item.Some? && t.item.value.published
    && (Compare(version, t.item.value.latest).None? || Compare(version, t.item.value.latest).value <= 0)
  }

  /** The first of these that applies. */
  ghost function Refusal(t: Tables, version: string, platform: string, creator: string): Option<StoreError> {
    if t.item.Some? && Differ(t.item.value.creator, creator) then Some(PublishForbidden)
    else if Waiting(t, version, creator) then Some(PendingReleaseExists)
    else if SomethingPending(t) && (version, platform) in t.platforms then Some(PublishedVersionExists)
    else if NotNewer(t, version) then Some(VersionNotNewer)
    else if version in t.versions && t.versions[version].published then Some(PublishedVersionExists)
    else None
  }

  lemma GuardRefuses(t: Tables, key: ItemKey, version: string, platform: string, creator: string)
    requires Consistent(t, key)
    ensures PublishGuard(t, version, platform, creator) == Refusal(t, version, platform, creator)
  {
    WaitingBlocks(t, key, version, creator);
    OlderIsNotNewer(t, version);
  }

  lemma OlderIsNotNewer(t: Tables, version: string)
    ensures NotNewer(t, version) <==> IsPublished(t) && !Newer(version, t.item.value.latest)
  {
    if t.item.Some? {
      ComparatorTotal(version, t.item.value.latest);
    }
  }

  /** Why a submission is refused. */
  lemma SubmissionRefusals(t: Tables, key: ItemKey, req: Request, artifact: Option<Artifact>, now: string)
    requires Consistent(t, key)
    ensures var platform := if req.platform.Some? then req.platform.value.key else req.platformKey;
      match Refusal(t, Canonical(req.version), platform, TrimSpace(req.creatorId))
      case Some(error) => Publish(t, req, artifact, now) == Failed(error)
      case None => Publish(t, req, artifact, now).Done?
  {
    var canonical := req.(version := Canonical(req.version));
    assert CreatorOf(canonical) == TrimSpace(req.creatorId);
    GuardRefuses(t, key, canonical.version, PlatformOf(canonical).key, CreatorOf(canonical));
  }

  lemma WaitingBlocks(t: Tables, key: ItemKey, version: string, creator: string)
    requires Consistent(t, key)
    ensures PendingBlocks(t, version, creator) <==> Waiting(t, version, creator)
    ensures PendingVersion(t).Some? <==> SomethingPending(t)
  {
    forall v | v in t.versions && t.versions[v].review.status == Pending ensures PendingVersion(t) == Some(v) {
      PendingIsUnique(t, key, v);
    }
    if PendingVersion(t).Some? {
      PendingIsUnique(t, key, PendingVersion(t).value);
    }
  }

  // ------------------------------------------------------------------ reviews

  predicate AwaitsReview(t: Tables, version: string) {
    version in t.versions && t.versions[version].review.status == Pending && t.versions[version].snapshot.Some?
  }

  /** The review says what the call said; a call without a reviewer is the admin's. */
  predicate Judged(review: Review, status: string, note: string, reviewer: string, now: string) {
    && AsksFor(status, review.status) && review.note == TrimSpace(note) && review.reviewedAt == now
    && review.reviewedBy == if TrimSpace(reviewer) == "" then "admin" else TrimSpace(reviewer)
  }

  lemma ReviewIsJudged(status: string, note: string, reviewer: string, now: string)
    ensures match NormalizeStatus(status, None)
      case None => forall s :: !AsksFor(status, s)
      case Some(s) =>
        AsksFor(status, s) && Judged(Review(s, TrimSpace(note), now, ReviewerOf(reviewer)), status, note, reviewer, now)
  {
  }

  lemma CandidateAwaits(t: Tables, key: ItemKey, version: string)
    requires Consistent(t, key)
    ensures AwaitsReview(t, version) <==> PendingCandidate(t) == Some(version)
  {
    PendingIsUnique(t, key, version);
    assert version in t.versions ==> RowConsistent(key, version, t.versions[version]);
  }

  lemma NothingAwaits(t: Tables, key: ItemKey)
    requires Consistent(t, key)
    ensures (forall v :: !AwaitsReview(t, v)) <==> PendingCandidate(t).None?
  {
    forall v ensures AwaitsReview(t, v) <==> PendingCandidate(t) == Some(v) {
      CandidateAwaits(t, key, v);
    }
    if PendingCandidate(t).Some? {
      assert AwaitsReview(t, PendingCandidate(t).value);
    }
  }

  /** The platform rows of the version follow its flag; their specifications and all
      other rows stay. */
  ghost predicate PlatformsFollow(t: Tables, next: Tables, version: string, published: bool, now: string) {
    && (forall k :: k in next.platforms <==> k in t.platforms)
    && forall k :: k in t.platforms ==>
         && next.platforms[k].spec == t.platforms[k].spec && next.platforms[k].createdAt == t.platforms[k].createdAt
         && next.platforms[k].published == (if k.0 == version then published else t.platforms[k].published)
         && next.platforms[k].updatedAt == (if k.0 == version then now else t.platforms[k].updatedAt)
  }

  /** One event tells what was decided, by whom and from which standing. */
  ghost predicate EventTells(t: Tables, next: Tables, version: string, from: Status, review: Review, now: string) {
    && |next.events| == |t.events| + 1 && next.events[..|t.events|] == t.events
    && var event := next.events[|t.events|];
       && event.version == version && event.action == Word(review.status)
       && event.from == Some(from) && event.to == review.status
       && event.actor == review.reviewedBy && event.note == review.note && event.at == now
  }

  /** The call decides the one version that awaits review. */
  lemma DecidesAwaiting(t: Tables, key: ItemKey, version: string, status: string, note: string, reviewer: string,
                        now: string)
    returns (review: Review)
    requires Consistent(t, key) && AwaitsReview(t, version) && UpdateReview(t, key, status, note, reviewer, now).Done?
    ensures Judged(review, status, note, reviewer, now)
    ensures UpdateReview(t, key, status, note, reviewer, now) == ReviewPending(t, key, version, review, now)
  {
    CandidateAwaits(t, key, version);
    ReviewIsJudged(status, note, reviewer, now);
    review := Review(NormalizeStatus(status, None).value, TrimSpace(note), now, ReviewerOf(reviewer));
  }

  lemma DecidedVersion(t: Tables, key: ItemKey, version: string, review: Review, now: string)
    requires version in t.versions && ReviewPending(t, key, version, review, now).Done?
    ensures ReviewPending(t, key, version, review, now).tables.versions
      == t.versions[version := t.versions[version].(review := review, published := review.status == Approved)]
  {
  }

  lemma DecidedPlatforms(t: Tables, key: ItemKey, version: string, review: Review, now: string)
    requires version in t.versions && ReviewPending(t, key, version, review, now).Done?
    ensures PlatformsFollow(t, ReviewPending(t, key, version, review, now).tables, version,
                            review.status == Approved, now)
    ensures ReviewPending(t, key, version, review, now).tables.artifacts == t.artifacts
  {
  }

  lemma DecidedEvent(t: Tables, key: ItemKey, version: string, review: Review, now: string)
    requires version in t.versions && ReviewPending(t, key, version, review, now).Done?
    ensures EventTells(t, ReviewPending(t, key, version, review, now).tables, version,
                       t.versions[version].review.status, review, now)
  {
  }

  /** A decided version carries the judgement of the call, and nothing else of it changes;
      its platforms follow, its files stay, and one event tells of it. */
  lemma ReviewWritesVersion(t: Tables, key: ItemKey, version: string, status: string, note: string, reviewer: string,
                            now: string)
    returns (review: Review)
    requires Consistent(t, key) && AwaitsReview(t, version) && UpdateReview(t, key, status, note, reviewer, now).Done?
    ensures Judged(review, status, note, reviewer, now)
    ensures var next, published := UpdateReview(t, key, status, note, reviewer, now).tables, review.status == Approved;
      && next.versions == t.versions[version := t.versions[version].(review := review, published := published)]
      && PlatformsFollow(t, next, version, published, now) && next.artifacts == t.artifacts
      && EventTells(t, next, version, Pending, review, now)
  {
    review := DecidesAwaiting(t, key, version, status, note, reviewer, now);
    DecidedVersion(t, key, version, review, now);
    DecidedPlatforms(t, key, version, review, now);
    DecidedEvent(t, key, version, review, now);
  }

  lemma ItemOfApproval(t: Tables, key: ItemKey, version: string, review: Review, now: string)
    requires version in t.versions && RowConsistent(key, version, t.versions[version]) && review.status == Approved
    requires ReviewPending(t, key, version, review, now).Done?
    ensures t.versions[version].snapshot.Some?
    ensures var next, row := ReviewPending(t, key, version, review, now).tables, t.versions[version];
      && TaxonomyShown(next.taxonomy, t.taxonomy, row.snapshot.value)
      && next.item.Some? && Shows(next.item.value.payload, row.snapshot.value)
      && next.item.value
        == ItemRow(next.item.value.payload, version, row.creator, review, true, row.submittedAt, now, now,
                   if t.item.Some? then t.item.value.views else 0)
  {
    ActivationShows(t, t.versions[version].snapshot.value.(creatorId := t.versions[version].creator));
  }

  lemma ActivationShows(t: Tables, req: Request)
    ensures Shows(PayloadOf(req), req) && TaxonomyShown(ReplaceTaxonomy(t.taxonomy, req), t.taxonomy, req)
  {
    MetadataKept(req.metadata);
    TaxonomyIsShown(t.taxonomy, req);
  }

  /** Once approved the item shows the request of that version, under its judgement. */
  lemma ApprovalWritesItem(t: Tables, key: ItemKey, version: string, status: string, note: string, reviewer: string,
                           now: string)
    returns (review: Review)
    requires Consistent(t, key) && AwaitsReview(t, version) && UpdateReview(t, key, status, note, reviewer, now).Done?
    requires AsksFor(status, Approved)
    ensures Judged(review, status, note, reviewer, now)
    ensures var next, row := UpdateReview(t, key, status, note, reviewer, now).tables, t.versions[version];
      && TaxonomyShown(next.taxonomy, t.taxonomy, row.snapshot.value)
      && next.item.Some? && Shows(next.item.value.payload, row.snapshot.value)
      && next.item.value
        == ItemRow(next.item.value.payload, version, row.creator, review, true, row.submittedAt, now, now,
                   if t.item.Some? then t.item.value.views else 0)
  {
    review := DecidesAwaiting(t, key, version, status, note, reviewer, now);
    assert RowConsistent(key, version, t.versions[version]);
    ItemOfApproval(t, key, version, review, now);
  }

  lemma ItemOfRefusal(t: Tables, key: ItemKey, version: string, review: Review, now: string)
    requires Consistent(t, key) && version in t.versions && review.status != Approved
    requires ReviewPending(t, key, version, review, now).Done?
    ensures var next := ReviewPending(t, key, version, review, now).tables;
      && next.taxonomy == t.taxonomy
      && next.item == if t.item.Some? && !t.item.value.published && t.item.value.latest == version
                      then Some(t.item.value.(review := review, updatedAt := now)) else t.item
  {
    if t.item.Some? {
      assert RowConsistent(key, t.item.value.latest, t.versions[t.item.value.latest]);
    }
  }

  /** Otherwise only an unpublished item that shows that version follows the judgement. */
  lemma RefusalWritesItem(t: Tables, key: ItemKey, version: string, status: string, note: string, reviewer: string,
                          now: string)
    returns (review: Review)
    requires Consistent(t, key) && AwaitsReview(t, version) && UpdateReview(t, key, status, note, reviewer, now).Done?
    requires !AsksFor(status, Approved)
    ensures Judged(review, status, note, reviewer, now)
    ensures var next := UpdateReview(t, key, status, note, reviewer, now).tables;
      && next.taxonomy == t.taxonomy
      && next.item == if t.item.Some? && !t.item.value.published && t.item.value.latest == version
                      then Some(t.item.value.(review := review, updatedAt := now)) else t.item
  {
    review := DecidesAwaiting(t, key, version, status, note, reviewer, now);
    ItemOfRefusal(t, key, version, review, now);
  }

  /** With nothing to decide, item and latest version carry the judgement as they stand. */
  lemma LegacyReviewWrites(t: Tables, key: ItemKey, status: string, note: string, reviewer: string, now: string)
    requires Consistent(t, key) && (forall v :: !AwaitsReview(t, v))
    requires UpdateReview(t, key, status, note, reviewer, now).Done?
    ensures t.item.Some?
    ensures var next, item := UpdateReview(t, key, status, note, reviewer, now).tables, t.item.value;
      && next.item.Some? && Judged(next.item.value.review, status, note, reviewer, now)
      && (next.item.value.published <==> next.item.value.review.status == Approved)
      && next.item.value
        == item.(review := next.item.value.review, published := next.item.value.published, updatedAt := now)
      && next.versions == t.versions[item.latest := t.versions[item.latest].(review := next.item.value.review,
                                                                             published := next.item.value.published)]
      && next.platforms == t.platforms && next.artifacts == t.artifacts && next.taxonomy == t.taxonomy
      && EventTells(t, next, item.latest, item.review.status, next.item.value.review, now)
  {
    NothingAwaits(t, key);
    ReviewIsJudged(status, note, reviewer, now);
  }

  /** Why a review is refused. */
  lemma ReviewRefusals(t: Tables, key: ItemKey, status: string, note: string, reviewer: string, now: string)
    requires Consistent(t, key)
    ensures var outcome := UpdateReview(t, key, status, note, reviewer, now);
      if forall s :: !AsksFor(status, s) then outcome == Failed(InvalidStatus)
      else if NamelessAwaits(t) then outcome == Failed(SnapshotMissing)
      else if t.item.None? then outcome == Failed(NoRows)
      else outcome.Done?
  {
    ReviewIsJudged(status, note, reviewer, now);
    NamelessCandidate(t, key);
    if PendingCandidate(t).Some? {
      var v := PendingCandidate(t).value;
      assert RowConsistent(key, v, t.versions[v]);
      if NormalizeStatus(status, None).Some? {
        var review := Review(NormalizeStatus(status, None).value, TrimSpace(note), now, ReviewerOf(reviewer));
        DecisionFails(t, key, v, review, now);
      }
    }
  }

  lemma DecisionFails(t: Tables, key: ItemKey, version: string, review: Review, now: string)
    requires version in t.versions && t.versions[version].snapshot.Some?
    requires RowConsistent(key, version, t.versions[version])
    ensures if TrimSpace(t.versions[version].snapshot.value.name) == ""
      then ReviewPending(t, key, version, review, now) == Failed(SnapshotMissing)
      else ReviewPending(t, key, version, review, now).Done?
  {
  }

  ghost predicate NamelessAwaits(t: Tables) {
    exists v :: AwaitsReview(t, v) && TrimSpace(t.versions[v].snapshot.value.name) == ""
  }

  lemma NamelessCandidate(t: Tables, key: ItemKey)
    requires Consistent(t, key)
    ensures PendingCandidate(t).Some? ==> AwaitsReview(t, PendingCandidate(t).value)
    ensures NamelessAwaits(t) <==> PendingCandidate(t).Some?
                                   && TrimSpace(t.versions[PendingCandidate(t).value].snapshot.value.name) == ""
  {
    forall v | AwaitsReview(t, v) ensures PendingCandidate(t) == Some(v) {
      CandidateAwaits(t, key, v);
    }
  }

  // ---------------------------------------------------------------- unpublish

  /** Falling back changes nothing but the item row and its taxonomy. */
  lemma FallBackKeepsRows(t: Tables, key: ItemKey, replacement: string, now: string)
    requires t.item.Some? && FallBack(t, key, replacement, now).Done?
    ensures var next := FallBack(t, key, replacement, now).tables;
      next.versions == t.versions && next.platforms == t.platforms && next.artifacts == t.artifacts
      && next.events == t.events
  {
  }

  lemma WithdrawalFollows(t: Tables, version: string, now: string)
    requires version in t.versions
    ensures PlatformsFollow(t, Withdraw(t, version, now), version, false, now)
  {
  }

  /** The version leaves the shelf with its platforms; its review, its files and the log stay. */
  lemma UnpublishWithdraws(t: Tables, key: ItemKey, text: string, rows: seq<string>, now: string)
    requires Unpublish(t, key, text, rows, now).Done?
    ensures var next, version := Unpublish(t, key, text, rows, now).tables, Canonical(text);
      && version in t.versions && next.versions == t.versions[version := t.versions[version].(published := false)]
      && PlatformsFollow(t, next, version, false, now)
      && next.artifacts == t.artifacts && next.events == t.events
  {
    WithdrawalFollows(t, Canonical(text), now);
    FallBackKeepsRows(Withdraw(t, Canonical(text), now), key, Latest(rows), now);
  }

  /** A version that may take the place of one withdrawn. */
  predicate Replaces(t: Tables, withdrawn: string, version: string) {
    && version in t.versions && version != withdrawn
    && t.versions[version].published && t.versions[version].review.status == Approved && Parse(version).Some?
  }

  /** The newest version left. */
  ghost predicate NewestLeft(t: Tables, withdrawn: string, version: string) {
    Replaces(t, withdrawn, version) && forall v :: Replaces(t, withdrawn, v) ==> Compare(v, version).value <= 0
  }

  lemma ScanFindsNewest(t: Tables, text: string, rows: seq<string>, now: string)
    requires Canonical(text) in t.versions && RowsScanned(t, text, rows, now)
    ensures if Latest(rows) == "" then forall v :: !Replaces(t, Canonical(text), v)
            else NewestLeft(t, Canonical(text), Latest(rows))
  {
    LatestIsMaximum(rows);
    forall v ensures Replaces(t, Canonical(text), v) <==> v in rows && Parse(v).Some? {
      assert v in rows <==> v in PublishedVersions(Withdraw(t, Canonical(text), now));
    }
  }

  /** The item shows the newest version left as it was reviewed, from the time it was
      first published, or goes offline when there is none. */
  lemma UnpublishFallsBack(t: Tables, key: ItemKey, text: string, rows: seq<string>, now: string)
    requires RowsScanned(t, text, rows, now) && Unpublish(t, key, text, rows, now).Done?
    requires forall v :: v in t.versions ==> RowConsistent(key, v, t.versions[v])
    ensures t.item.Some?
    ensures var next := Unpublish(t, key, text, rows, now).tables;
      if forall v :: !Replaces(t, Canonical(text), v) then
        next.item == Some(t.item.value.(published := false, updatedAt := now)) && next.taxonomy == t.taxonomy
      else
        exists version :: NewestLeft(t, Canonical(text), version) && FallenBackTo(t, next, version, now)
  {
    ScanFindsNewest(t, text, rows, now);
    var version := Latest(rows);
    if version != "" {
      assert RowConsistent(key, version, t.versions[version]);
      ActivationShows(t, t.versions[version].snapshot.value.(creatorId := t.versions[version].creator));
      assert FallenBackTo(t, Unpublish(t, key, text, rows, now).tables, version, now);
    }
  }

  ghost predicate FallenBackTo(t: Tables, next: Tables, version: string, now: string) {
    && version in t.versions && t.versions[version].snapshot.Some? && next.item.Some? && t.item.Some?
    && var row, item := t.versions[version], next.item.value;
       && Shows(item.payload, row.snapshot.value) && TaxonomyShown(next.taxonomy, t.taxonomy, row.snapshot.value)
       && item == ItemRow(item.payload, version, row.creator, row.review, true, row.submittedAt,
                          if row.publishedAt != "" then row.publishedAt else row.submittedAt, now, t.item.value.views)
  }

  /** Why unpublishing is refused. */
  lemma UnpublishRefusals(t: Tables, key: ItemKey, text: string, rows: seq<string>, now: string)
    requires Consistent(t, key) && RowsScanned(t, text, rows, now)
    ensures var outcome := Unpublish(t, key, text, rows, now);
      if Canonical(text) == "" then outcome == Failed(VersionRequired)
      else if t.item.None? then outcome == Failed(NoRows)
      else if Canonical(text) != t.item.value.latest then outcome == Failed(UnpublishNotLatest)
      else if exists v :: NewestLeft(t, Canonical(text), v) && Latest(rows) == v && Nameless(t.versions[v]) then
        outcome == Failed(SnapshotMissing)
      else outcome.Done?
  {
    if t.item.Some? {
      assert RowConsistent(key, t.item.value.latest, t.versions[t.item.value.latest]);
      if Canonical(text) == t.item.value.latest {
        ScanFindsNewest(t, text, rows, now);
        assert Latest(rows) != "" ==> RowConsistent(key, Latest(rows), t.versions[Latest(rows)]);
      }
    }
  }

  predicate Nameless(row: VersionRow) { row.snapshot.None? || TrimSpace(row.snapshot.value.name) == "" }

  // -------------------------------------------------------- views and renaming

  /** A view is counted on an item that is published and approved, and changes nothing else. */
  lemma CountingWrites(t: Tables)
    ensures if t.item.Some? && t.item.value.published && t.item.value.review.status == Approved
      then CountView(t) == Done(t.(item := Some(t.item.value.(views := t.item.value.views + 1))))
      else CountView(t) == Failed(NoRows)
  {
  }

  /** Two busy attempts are made good by the third; three are not. */
  lemma ThirdAttemptCounts(last: Attempt)
    ensures AttemptsFail([Busy, Busy, last], [false, false], 0)
      == match last case Served => None case Busy => Some(DatabaseBusy) case Broken => Some(DatabaseFailed)
  {
    assert AttemptsFail([Busy, Busy, last], [false, false], 2)
      == match last case Served => None case Busy => Some(DatabaseBusy) case Broken => Some(DatabaseFailed);
    assert AttemptsFail([Busy, Busy, last], [false, false], 1)
      == match last case Served => None case Busy => Some(DatabaseBusy) case Broken => Some(DatabaseFailed);
  }

  predicate Became(before: string, after: string, oldId: string, newId: string) {
    if before == oldId then after == newId else after == before
  }

  /** A change of identifier reaches every creator and reviewer of item and versions, and
      nothing else. */
  lemma RenamingWrites(t: Tables, oldId: string, newId: string)
    ensures var next := Rekey(t, oldId, newId);
      && next.platforms == t.platforms && next.artifacts == t.artifacts
      && next.taxonomy == t.taxonomy && next.events == t.events
      && (next.item.Some? <==> t.item.Some?)
      && (t.item.Some? ==> ItemRenamed(t.item.value, next.item.value, oldId, newId))
      && (forall v :: v in next.versions <==> v in t.versions)
      && forall v :: v in t.versions ==> VersionRenamed(t.versions[v], next.versions[v], oldId, newId)
  {
  }

  predicate ItemRenamed(before: ItemRow, after: ItemRow, oldId: string, newId: string) {
    && Became(before.creator, after.creator, oldId, newId)
    && Became(before.review.reviewedBy, after.review.reviewedBy, oldId, newId)
    && after == before.(creator := after.creator, review := before.review.(reviewedBy := after.review.reviewedBy))
  }

  predicate VersionRenamed(before: VersionRow, after: VersionRow, oldId: string, newId: string) {
    && Became(before.creator, after.creator, oldId, newId)
    && Became(before.review.reviewedBy, after.review.reviewedBy, oldId, newId)
    && after == before.(creator := after.creator, review := before.review.(reviewedBy := after.review.reviewedBy))
  }

  // -------------------------------------------------------- what comes of it

  lemma SubmissionAwaits(t: Tables, req: Request, artifact: Option<Artifact>, now: string)
    requires Publish(t, req, artifact, now).Done? && AsksFor(req.reviewStatus, Pending)
    ensures var next, version := Publish(t, req, artifact, now).tables, Canonical(req.version);
      && AwaitsReview(next, version)
      && next.versions[version].snapshot == Some(req.(version := version, creatorId := "", checks := ""))
  {
  }

  predicate IsLive(t: Tables) {
    t.item.Some? && t.item.value.published && t.item.value.review.status == Approved
  }

  /** The item is live and this version is published and approved. */
  predicate OnSale(t: Tables, version: string) {
    && IsLive(t) && version in t.versions
    && t.versions[version].published && t.versions[version].review.status == Approved
  }

  /** The public reads files and platforms of versions on sale as they are stored, and of
      those only the platforms that are published themselves. */
  lemma ReadsAre(t: Tables, version: string, platform: string, file: Artifact, spec: PlatformSpec)
    ensures GetArtifact(t, version, platform) == Some(file)
      <==> OnSale(t, version) && (version, platform) in t.artifacts && t.artifacts[(version, platform)].artifact == file
    ensures GetPlatform(t, version, platform) == Some(spec)
      <==> OnSale(t, version) && (version, platform) in t.platforms && t.platforms[(version, platform)].published
           && t.platforms[(version, platform)].spec == spec
    ensures ReadableVersion(t, version) <==> OnSale(t, Canonical(version))
  {
  }

  /** It reads the manifest of the version asked for, or of the item when no version is
      named; publishers read that of any version there is. A blank manifest is none. */
  lemma ManifestsAre(t: Tables, asked: string, text: string)
    ensures var version := Canonical(asked);
      && (version != "" ==>
            (GetADPYAML(t, asked) == Some(text)
             <==> OnSale(t, version) && t.versions[version].content.adpYaml == text && !Blank(text)))
      && (version == "" ==>
            (GetADPYAML(t, asked) == Some(text)
             <==> IsLive(t) && t.item.value.payload.adpYaml == text && !Blank(text)))
      && (GetPublishADPYAML(t, asked) == Some(text)
          <==> version != "" && version in t.versions && t.versions[version].content.adpYaml == text && !Blank(text))
  {
    BlankIsEmpty(text);
  }

  /** A stored snapshot is taken for a release when it is of this item and version and has
      a name; its creator is the version's. */
  lemma SnapshotIsTaken(key: ItemKey, version: string, row: VersionRow, req: Request)
    ensures DecodeSnapshot(key, version, row) == Some(req)
      <==> row.snapshot.Some?
           && var sent := row.snapshot.value;
              && sent.itemType == key.itemType && sent.id == key.id && Canonical(sent.version) == Canonical(version)
              && !Blank(sent.name) && req == sent.(version := Canonical(version), creatorId := row.creator)
  {
    if row.snapshot.Some? {
      BlankIsEmpty(row.snapshot.value.name);
    }
  }

  lemma ReadsOpened(t: Tables, version: string, platform: string)
    requires OnSale(t, version)
    ensures (version, platform) in t.platforms && t.platforms[(version, platform)].published ==>
      GetPlatform(t, version, platform) == Some(t.platforms[(version, platform)].spec)
    ensures (version, platform) in t.artifacts ==>
      GetArtifact(t, version, platform) == Some(t.artifacts[(version, platform)].artifact)
  {
  }

  /** Approving a version makes its files and platforms readable as they are stored. */
  lemma ApprovalOpens(t: Tables, key: ItemKey, version: string, platform: string,
                      status: string, note: string, reviewer: string, now: string)
    requires Consistent(t, key) && AwaitsReview(t, version) && AsksFor(status, Approved)
    requires UpdateReview(t, key, status, note, reviewer, now).Done?
    ensures var next := UpdateReview(t, key, status, note, reviewer, now).tables;
      && ((version, platform) in t.platforms ==>
            GetPlatform(next, version, platform) == Some(t.platforms[(version, platform)].spec))
      && ((version, platform) in t.artifacts ==>
            GetArtifact(next, version, platform) == Some(t.artifacts[(version, platform)].artifact))
  {
    var review := ReviewWritesVersion(t, key, version, status, note, reviewer, now);
    var shown := ApprovalWritesItem(t, key, version, status, note, reviewer, now);
    ReadsOpened(UpdateReview(t, key, status, note, reviewer, now).tables, version, platform);
  }

  /** A release submitted and approved is the live one: the item shows the request. */
  lemma ApprovedIsShown(t: Tables, key: ItemKey, req: Request, file: Option<Artifact>, now: string,
                        status: string, note: string, reviewer: string, later: string)
    requires Consistent(t, key) && KeyOf(req) == key && AsksFor(req.reviewStatus, Pending) && AsksFor(status, Approved)
    requires Publish(t, req, file, now).Done?
    requires UpdateReview(Publish(t, req, file, now).tables, key, status, note, reviewer, later).Done?
    ensures var next := UpdateReview(Publish(t, req, file, now).tables, key, status, note, reviewer, later).tables;
      && next.item.Some? && next.item.value.latest == Canonical(req.version) && Shows(next.item.value.payload, req)
      && TagsShown(next.taxonomy.tags, req.tags)
  {
    PublishKeepsConsistent(t, key, req, file, now);
    SubmissionAwaits(t, req, file, now);
    var shown := ApprovalWritesItem(
      Publish(t, req, file, now).tables, key, Canonical(req.version), status, note, reviewer, later);
  }

  /** And the public is given its platform and its file as they were sent. */
  lemma ApprovedIsServed(t: Tables, key: ItemKey, req: Request, file: Option<Artifact>, now: string,
                         status: string, note: string, reviewer: string, later: string)
    requires Consistent(t, key) && KeyOf(req) == key && AsksFor(req.reviewStatus, Pending) && AsksFor(status, Approved)
    requires Publish(t, req, file, now).Done?
    requires UpdateReview(Publish(t, req, file, now).tables, key, status, note, reviewer, later).Done?
    ensures var next := UpdateReview(Publish(t, req, file, now).tables, key, status, note, reviewer, later).tables;
      var platform := if req.platform.Some? then req.platform.value.key else req.platformKey;
      && GetPlatform(next, Canonical(req.version), platform)
         == (if req.platform.Some? then req.platform
             else Some(PlatformSpec(platform, "", "", "", "", "", map[], "[]", "{}")))
      && (file.Some? ==> GetArtifact(next, Canonical(req.version), file.value.platformKey) == file)
  {
    var pending, version := Publish(t, req, file, now).tables, Canonical(req.version);
    PublishKeepsConsistent(t, key, req, file, now);
    SubmissionAwaits(t, req, file, now);
    SubmissionWritesPlatform(t, req, file, now);
    SubmissionWritesFile(t, req, file, now);
    ApprovalOpens(pending, key, version, PlatformOf(req).key, status, note, reviewer, later);
    if file.Some? {
      ApprovalOpens(pending, key, version, file.value.platformKey, status, note, reviewer, later);
    }
  }
}

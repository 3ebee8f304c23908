/** What the release operations of store.go do to the rows of one item: a
    transaction either yields the new rows or fails and leaves the old ones. */
module Release {
  import opened Text
  import opened SemVer
  import opened Market

  datatype StoreError =
    | PublishForbidden | PendingReleaseExists | PublishedVersionExists | VersionNotNewer
    | SnapshotMissing | UnpublishNotLatest | NoRows | VersionRequired | InvalidStatus
    | DatabaseBusy | DatabaseFailed | TimedOut

  datatype Outcome = Done(tables: Tables) | Failed(error: StoreError)

  // ----------------------------------------------------------------- queries

  predicate IsPending(versions: map<string, VersionRow>, version: string) {
    version in versions && versions[version].review.status == Pending
  }

  /** The row a single-row query answers with; nothing is known when several match. */
  ghost function Pick(rows: set<string>): (row: Option<string>)
    ensures row.None? <==> rows == {}
    ensures row.Some? ==> row.value in rows
  {
    if rows == {} then None else Some(var v :| v in rows; v)
  }

  ghost function PendingVersion(t: Tables): Option<string> {
    Pick(set v | v in t.versions && IsPending(t.versions, v))
  }

  /** pendingVersionCandidateTx skips rows without a snapshot. */
  ghost function PendingCandidate(t: Tables): Option<string> {
    Pick(set v | v in t.versions && IsPending(t.versions, v) && t.versions[v].snapshot.Some?)
  }

  /** decodeVersionSnapshot */
  function DecodeSnapshot(key: ItemKey, version: string, row: VersionRow): Option<Request> {
    if row.snapshot.None? then None
    else
      var req := row.snapshot.value;
      if || KeyOf(req) != key
         || Canonical(req.version) != Canonical(version)
         || TrimSpace(req.name) == "" then None
      else Some(req.(version := Canonical(version), creatorId := row.creator))
  }

  ghost predicate Lists(rows: seq<string>, versions: set<string>) {
    forall v :: v in rows <==> v in versions
  }

  // ----------------------------------------------------------------- Publish

  function CreatorOf(req: Request): string { TrimSpace(req.creatorId) }

  predicate Conflict(known: string, claimed: string) { known != "" && claimed != "" && known != claimed }

  ghost predicate PendingBlocks(t: Tables, version: string, creator: string) {
    var pending := PendingVersion(t);
    pending.Some? && (Canonical(pending.value) != version || Conflict(t.versions[pending.value].creator, creator))
  }

  /** The checks of Publish, in its order. */
  ghost function PublishGuard(t: Tables, version: string, platform: string, creator: string): Option<StoreError> {
    if t.item.Some? && Conflict(t.item.value.creator, creator) then Some(PublishForbidden)
    else if PendingBlocks(t, version, creator) then Some(PendingReleaseExists)
    else if PendingVersion(t).Some? && (version, platform) in t.platforms then Some(PublishedVersionExists)
    else if IsPublished(t) && !Newer(version, t.item.value.latest) then Some(VersionNotNewer)
    else if version in t.versions && t.versions[version].published then Some(PublishedVersionExists)
    else None
  }

  /** The checks of ValidateRelease, in its order; a pending release ends them early. */
  ghost function ReleaseGuard(t: Tables, version: string, platform: string, creator: string): Option<StoreError> {
    if t.item.Some? && Conflict(t.item.value.creator, creator) then Some(PublishForbidden)
    else if IsPublished(t) && !Newer(version, t.item.value.latest) then Some(VersionNotNewer)
    else if PendingBlocks(t, version, creator) then Some(PendingReleaseExists)
    else if PendingVersion(t).Some? then
      if (version, platform) in t.platforms then Some(PublishedVersionExists) else None
    else if version in t.versions && t.versions[version].published then Some(PublishedVersionExists)
    else None
  }

  ghost function ValidateRelease(t: Tables, version: string, platformKey: string, creator: string): Option<StoreError> {
    ReleaseGuard(t, Canonical(version), CleanKey(platformKey), TrimSpace(creator))
  }

  function SubmittedStatus(req: Request): Status {
    NormalizeStatus(req.reviewStatus, Some(Approved)).value
  }

  function SubmittedReview(status: Status, now: string): Review {
    if status == Approved then Review(status, "", now, "admin") else Review(status, "", "", "")
  }

  function SubmittedItem(t: Tables, req: Request, now: string): ItemRow {
    var status := SubmittedStatus(req);
    var published := status == Approved;
    if t.item.Some? then
      ItemRow(PayloadOf(req), req.version, CreatorOf(req), SubmittedReview(status, now), published,
              now, t.item.value.publishedAt, now, t.item.value.views)
    else
      ItemRow(PayloadOf(req), req.version, CreatorOf(req), SubmittedReview(status, now), published, now, now, now, 0)
  }

  function SubmittedVersion(t: Tables, req: Request, now: string): VersionRow {
    var status := SubmittedStatus(req);
    VersionRow(ContentOf(req), CreatorOf(req), Some(SnapshotOf(req)), req.checks, SubmittedReview(status, now),
               status == Approved, now,
               if req.version in t.versions then t.versions[req.version].publishedAt else now)
  }

  function SubmittedPlatform(t: Tables, req: Request, now: string): PlatformRow {
    var spec := PlatformOf(req);
    PlatformRow(spec, SubmittedStatus(req) == Approved,
                if (req.version, spec.key) in t.platforms then t.platforms[(req.version, spec.key)].createdAt else now,
                now)
  }

  function SubmittedArtifacts(t: Tables, version: string, artifact: Option<Artifact>, now: string)
    : map<(string, string), ArtifactRow>
  {
    if artifact.None? then t.artifacts
    else t.artifacts[(version, artifact.value.platformKey) := ArtifactRow(artifact.value, now)]
  }

  function SubmittedEvent(t: Tables, req: Request, now: string): Event {
    Event(req.version, "submitted", if t.item.Some? then Some(t.item.value.review.status) else None,
          SubmittedStatus(req), CreatorOf(req), "", now)
  }

  /** The rows Publish writes; a published item row and its taxonomy stay as they are. */
  function Submitted(t: Tables, req: Request, artifact: Option<Artifact>, now: string): Tables {
    Tables(
      if IsPublished(t) then t.item else Some(SubmittedItem(t, req, now)),
      t.versions[req.version := SubmittedVersion(t, req, now)],
      t.platforms[(req.version, PlatformOf(req).key) := SubmittedPlatform(t, req, now)],
      SubmittedArtifacts(t, req.version, artifact, now),
      if IsPublished(t) then t.taxonomy else ReplaceTaxonomy(t.taxonomy, req),
      t.events + [SubmittedEvent(t, req, now)])
  }

  ghost function Publish(t: Tables, request: Request, artifact: Option<Artifact>, now: string): Outcome {
    var req := request.(version := Canonical(request.version));
    var refused := PublishGuard(t, req.version, PlatformOf(req).key, CreatorOf(req));
    if refused.Some? then Failed(refused.value) else Done(Submitted(t, req, artifact, now))
  }

  // ------------------------------------------------------------ UpdateReview

  datatype Activation = Activation(review: Review, submittedAt: string, publishedAt: string, updatedAt: string)

  /** applyVersionSnapshotTx: the item row and taxonomy become those of the snapshot. */
  function Activate(t: Tables, req: Request, creator: string, how: Activation): Tables {
    t.(item := Some(ItemRow(PayloadOf(req), req.version, creator, how.review, true, how.submittedAt,
                            how.publishedAt, how.updatedAt, if t.item.Some? then t.item.value.views else 0)),
       taxonomy := ReplaceTaxonomy(t.taxonomy, req))
  }

  function MarkVersion(t: Tables, version: string, review: Review, published: bool): Tables {
    if version in t.versions
    then t.(versions := t.versions[version := t.versions[version].(review := review, published := published)])
    else t
  }

  function MarkedRows(platforms: map<(string, string), PlatformRow>, version: string, published: bool, now: string)
    : map<(string, string), PlatformRow>
  {
    map key | key in platforms ::
      if key.0 == version then platforms[key].(published := published, updatedAt := now) else platforms[key]
  }

  function MarkPlatforms(t: Tables, version: string, published: bool, now: string): Tables {
    t.(platforms := MarkedRows(t.platforms, version, published, now))
  }

  function Record(t: Tables, event: Event): Tables { t.(events := t.events + [event]) }

  /** The item row follows a refused submission only while it shows that submission. */
  function ShowRefusal(t: Tables, version: string, review: Review, now: string): Tables {
    if t.item.Some? && !t.item.value.published && Canonical(t.item.value.latest) == version
    then t.(item := Some(t.item.value.(review := review, updatedAt := now))) else t
  }

  ghost function ReviewPending(t: Tables, key: ItemKey, version: string, review: Review, now: string): Outcome
    requires version in t.versions
  {
    var row := t.versions[version];
    var decoded := DecodeSnapshot(key, version, row);
    if decoded.None? then Failed(SnapshotMissing)
    else
      var published := review.status == Approved;
      var activation := Activation(review, row.submittedAt, now, now);
      var shown := if published then Activate(t, decoded.value, row.creator, activation)
                   else ShowRefusal(t, version, review, now);
      var marked := MarkPlatforms(MarkVersion(shown, version, review, published), version, published, now);
      Done(Record(marked, Event(version, StatusText(review.status), Some(row.review.status), review.status,
                                review.reviewedBy, review.note, now)))
  }

  /** updateLegacyReviewTx: reviews the item row and its latest version directly. */
  function ReviewLegacy(t: Tables, review: Review, now: string): Outcome {
    if t.item.None? then Failed(NoRows)
    else
      var item := t.item.value;
      var published := review.status == Approved;
      var shown := t.(item := Some(item.(review := review, published := published, updatedAt := now)));
      Done(Record(MarkVersion(shown, item.latest, review, published),
                  Event(item.latest, StatusText(review.status), Some(item.review.status), review.status,
                        review.reviewedBy, review.note, now)))
  }

  function ReviewerOf(reviewer: string): string {
    var reviewer := TrimSpace(reviewer);
    if reviewer == "" then "admin" else reviewer
  }

  ghost function UpdateReview(t: Tables, key: ItemKey, statusText: string, note: string, reviewer: string, now: string)
    : Outcome
  {
    var status := NormalizeStatus(statusText, None);
    if status.None? then Failed(InvalidStatus)
    else
      var review := Review(status.value, TrimSpace(note), now, ReviewerOf(reviewer));
      var candidate := PendingCandidate(t);
      if candidate.None? then ReviewLegacy(t, review, now) else ReviewPending(t, key, candidate.value, review, now)
  }

  // --------------------------------------------------------------- Unpublish

  /** The first two updates of Unpublish: the version leaves the shelf. */
  function Withdraw(t: Tables, version: string, now: string): Tables
    requires version in t.versions
  {
    MarkPlatforms(t.(versions := t.versions[version := t.versions[version].(published := false)]), version, false, now)
  }

  function RestoreActivation(row: VersionRow, now: string): Activation {
    Activation(row.review.(status := Approved), row.submittedAt,
               if row.publishedAt == "" then row.submittedAt else row.publishedAt, now)
  }

  /** Activates the replacement found, or takes the item offline. */
  function FallBack(t: Tables, key: ItemKey, replacement: string, now: string): Outcome
    requires t.item.Some?
  {
    if replacement == "" then Done(t.(item := Some(t.item.value.(published := false, updatedAt := now))))
    else if replacement !in t.versions then Failed(NoRows)
    else
      var row := t.versions[replacement];
      var decoded := DecodeSnapshot(key, replacement, row);
      if decoded.None? then Failed(SnapshotMissing)
      else Done(Activate(t, decoded.value, row.creator, RestoreActivation(row, now)))
  }

  /** Unpublish, given the order in which the rows of the replacement query came. */
  function Unpublish(t: Tables, key: ItemKey, versionText: string, rows: seq<string>, now: string): Outcome {
    var version := Canonical(versionText);
    if version == "" then Failed(VersionRequired)
    else if t.item.None? then Failed(NoRows)
    else if version != Canonical(t.item.value.latest) then Failed(UnpublishNotLatest)
    else if version !in t.versions then Failed(NoRows)
    else FallBack(Withdraw(t, version, now), key, Latest(rows), now)
  }

  /** The rows are those the replacement query finds after the withdrawal. */
  ghost predicate RowsScanned(t: Tables, versionText: string, rows: seq<string>, now: string) {
    Canonical(versionText) in t.versions ==> Lists(rows, PublishedVersions(Withdraw(t, Canonical(versionText), now)))
  }

  // ---------------------------------------------------- views, rekeying, runs

  /** IncrementDetailViewCount */
  function CountView(t: Tables): Outcome {
    if Live(t) then Done(t.(item := Some(t.item.value.(views := t.item.value.views + 1)))) else Failed(NoRows)
  }

  /** How the database takes one attempt of a statement. */
  datatype Attempt = Served | Busy | Broken

  /** The view counter tries again this many times, after a pause each. */
  const RETRIES: nat := 2

  /** Nothing once an attempt is served, else the error that ends the attempts; a pause
      may be cut short. */
  function AttemptsFail(attempts: seq<Attempt>, cut: seq<bool>, n: nat): Option<StoreError>
    requires |attempts| == RETRIES + 1 && |cut| == RETRIES && n <= RETRIES
    decreases RETRIES - n
  {
    match attempts[n]
    case Served => None
    case Broken => Some(DatabaseFailed)
    case Busy =>
      if n == RETRIES then Some(DatabaseBusy)
      else if cut[n] then Some(TimedOut)
      else AttemptsFail(attempts, cut, n + 1)
  }

  function Rename(id: string, oldId: string, newId: string): string { if id == oldId then newId else id }

  function RekeyItem(item: ItemRow, oldId: string, newId: string): ItemRow {
    item.(creator := Rename(item.creator, oldId, newId),
          review := item.review.(reviewedBy := Rename(item.review.reviewedBy, oldId, newId)))
  }

  function RekeyVersion(row: VersionRow, oldId: string, newId: string): VersionRow {
    row.(creator := Rename(row.creator, oldId, newId),
         review := row.review.(reviewedBy := Rename(row.review.reviewedBy, oldId, newId)))
  }

  /** The items and versions statements of rekeyMarketUser. */
  function Rekey(t: Tables, oldId: string, newId: string): Tables {
    t.(item := if t.item.Some? then Some(RekeyItem(t.item.value, oldId, newId)) else None,
       versions := map v | v in t.versions :: RekeyVersion(t.versions[v], oldId, newId))
  }

  /** The rows of an item the store has never seen are empty. */
  function SliceOf(db: map<ItemKey, Tables>, key: ItemKey): Tables {
    if key in db then db[key] else NO_ROWS
  }

  /** Every item after a change of user identifier. */
  function Renamed(db: map<ItemKey, Tables>, oldId: string, newId: string): map<ItemKey, Tables> {
    map key | key in db :: Rekey(db[key], oldId, newId)
  }

  datatype Op =
    | Submit(req: Request, artifact: Option<Artifact>, now: string)
    | Judge(status: string, note: string, reviewer: string, now: string)
    | Retire(version: string, rows: seq<string>, now: string)
    | CountOneView
    | RenameUser(oldId: string, newId: string)

  /** A call the store can receive for this item in this state. */
  ghost predicate Legit(t: Tables, key: ItemKey, op: Op) {
    match op
    case Submit(req, _, _) => KeyOf(req) == key
    case Retire(version, rows, now) => RowsScanned(t, version, rows, now)
    case _ => true
  }

  ghost function Apply(t: Tables, key: ItemKey, op: Op): Outcome {
    match op
    case Submit(req, artifact, now) => Publish(t, req, artifact, now)
    case Judge(status, note, reviewer, now) => UpdateReview(t, key, status, note, reviewer, now)
    case Retire(version, rows, now) => Unpublish(t, key, version, rows, now)
    case CountOneView => CountView(t)
    case RenameUser(oldId, newId) => Done(Rekey(t, oldId, newId))
  }

  /** A failed transaction leaves every row as it was. */
  ghost function After(t: Tables, key: ItemKey, op: Op): Tables {
    match Apply(t, key, op) case Done(next) => next case Failed(_) => t
  }

  /** The states an item goes through, one more than there are operations. */
  ghost predicate Run(key: ItemKey, ops: seq<Op>, states: seq<Tables>) {
    && |states| == |ops| + 1
    && states[0] == NO_ROWS
    && forall i :: 0 <= i < |ops| ==> Legit(states[i], key, ops[i]) && states[i + 1] == After(states[i], key, ops[i])
  }

  lemma RunPrefix(key: ItemKey, ops: seq<Op>, states: seq<Tables>)
    requires Run(key, ops, states) && ops != []
    ensures Run(key, ops[..|ops| - 1], states[..|states| - 1])
    ensures Legit(states[|ops| - 1], key, ops[|ops| - 1])
    ensures states[|ops|] == After(states[|ops| - 1], key, ops[|ops| - 1])
  {
  }

  lemma RunExtended(key: ItemKey, ops: seq<Op>, states: seq<Tables>, op: Op, next: Tables)
    requires Run(key, ops, states) && Legit(states[|ops|], key, op) && next == After(states[|ops|], key, op)
    ensures Run(key, ops + [op], states + [next])
  {
    var more, after := ops + [op], states + [next];
    forall i | 0 <= i <= |ops| ensures Legit(after[i], key, more[i]) && after[i + 1] == After(after[i], key, more[i]) {
      assert after[i] == states[i];
      if i < |ops| {
        assert more[i] == ops[i] && after[i + 1] == states[i + 1];
      }
    }
  }
}

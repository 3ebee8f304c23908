/** What the public can read, and what the release operations may do to it. */
module PublicView {
  import opened Text
  import opened SemVer
  import opened Market
  import opened Release
  import opened Consistency

  // ------------------------------------------------------ the live item row

  /** Published and live are one thing, and the live release is on the shelf. */
  lemma LiveLatestIsVisible(t: Tables, key: ItemKey)
    requires Consistent(t, key)
    ensures IsPublished(t) <==> Live(t)
    ensures Live(t) ==> t.item.value.latest in PublishedVersions(t) && ReadableVersion(t, t.item.value.latest)
    ensures forall v :: IsPending(t.versions, v) ==> v !in PublishedVersions(t)
  {
    if t.item.Some? {
      assert RowConsistent(key, t.item.value.latest, t.versions[t.item.value.latest]);
    }
  }

  /** The item row, tags and profile are what restoring the latest version would
      write: on a live item a restore changes the two stored timestamps only. */
  lemma RestoringLatestChangesNothing(t: Tables, key: ItemKey, now: string)
    requires Consistent(t, key) && t.item.Some?
    ensures var item := t.item.value;
      var row := t.versions[item.latest];
      var decoded := DecodeSnapshot(key, item.latest, row);
      && (decoded.Some? <==> TrimSpace(row.snapshot.value.name) != "")
      && (decoded.Some? ==>
            var restored := Activate(t, decoded.value, row.creator, RestoreActivation(row, now));
            && restored.item.value.payload == item.payload
            && restored.taxonomy == t.taxonomy
            && restored.item.value.creator == item.creator
            && restored.item.value.latest == item.latest
            && (Live(t) ==>
              restored == t.(item := Some(item.(publishedAt := restored.item.value.publishedAt, updatedAt := now)))))
  {
    var row := t.versions[t.item.value.latest];
    assert RowConsistent(key, t.item.value.latest, row);
    DecodesUnlessBlank(key, t.item.value.latest, row);
    if DecodeSnapshot(key, t.item.value.latest, row).Some? {
      ActivatedMirrors(t, key, t.item.value.latest, row, RestoreActivation(row, now));
    }
  }

  /** Asking for the live manifest or for the manifest of the live version is one question. */
  lemma ManifestOfLatest(t: Tables, key: ItemKey)
    requires Consistent(t, key) && Live(t)
    ensures GetADPYAML(t, "") == GetADPYAML(t, t.item.value.latest)
  {
    LiveLatestIsVisible(t, key);
    var row := t.versions[t.item.value.latest];
    assert RowConsistent(key, t.item.value.latest, row);
    assert row.content.adpYaml == t.item.value.payload.adpYaml;
    CanonicalIdempotent("");
    assert Canonical("") == "";
  }

  // ------------------------------------------------------------ public view

  function ArtifactsOf(t: Tables, version: string): map<(string, string), ArtifactRow> {
    map key | key in t.artifacts && key.0 == version :: t.artifacts[key]
  }

  function PlatformsOf(t: Tables, version: string): map<(string, string), PlatformRow> {
    map key | key in t.platforms && key.0 == version :: t.platforms[key]
  }

  /** A version on the shelf, with its files and platform specifications. */
  datatype Shelved = Shelved(
    row: VersionRow, artifacts: map<(string, string), ArtifactRow>, platforms: map<(string, string), PlatformRow>)

  /** The live item row, views included, its taxonomy, and every published version. */
  datatype View = View(live: Option<(ItemRow, Taxonomy)>, shelf: map<string, Shelved>)

  function ShelfOf(t: Tables): map<string, Shelved> {
    map v | v in PublishedVersions(t) :: Shelved(t.versions[v], ArtifactsOf(t, v), PlatformsOf(t, v))
  }

  function ViewOf(t: Tables): View {
    View(if Live(t) then Some((t.item.value, t.taxonomy)) else None, ShelfOf(t))
  }

  /** Changing rows of unpublished versions only leaves the shelf as it is. */
  lemma ShelfUnchanged(t: Tables, next: Tables, version: string)
    requires version !in PublishedVersions(t) && version !in PublishedVersions(next)
    requires forall v :: v != version ==> (v in t.versions <==> v in next.versions)
    requires forall v :: v != version && v in t.versions ==> next.versions[v] == t.versions[v]
    requires forall k: (string, string) :: k.0 != version ==> (k in t.artifacts <==> k in next.artifacts)
    requires forall k: (string, string) :: k.0 != version && k in t.artifacts ==> next.artifacts[k] == t.artifacts[k]
    requires forall k: (string, string) :: k.0 != version ==> (k in t.platforms <==> k in next.platforms)
    requires forall k: (string, string) :: k.0 != version && k in t.platforms ==> next.platforms[k] == t.platforms[k]
    ensures ShelfOf(next) == ShelfOf(t)
  {
    forall v | v != version
      ensures ArtifactsOf(next, v) == ArtifactsOf(t, v) && PlatformsOf(next, v) == PlatformsOf(t, v)
    {}
    assert PublishedVersions(next) == PublishedVersions(t);
  }

  lemma SubmittedShelf(t: Tables, req: Request, artifact: Option<Artifact>, now: string)
    requires SubmittedStatus(req) != Approved && (req.version in t.versions ==> !t.versions[req.version].published)
    ensures ShelfOf(Submitted(t, req, artifact, now)) == ShelfOf(t)
  {
    ShelfUnchanged(t, Submitted(t, req, artifact, now), req.version);
  }

  /** A submission that is not approved on the spot is invisible, accepted or not. */
  lemma SubmissionIsInvisible(t: Tables, key: ItemKey, req: Request, artifact: Option<Artifact>, now: string)
    requires Consistent(t, key) && KeyOf(req) == key && SubmittedStatus(req) != Approved
    ensures ViewOf(After(t, key, Submit(req, artifact, now))) == ViewOf(t)
  {
    if Publish(t, req, artifact, now).Done? {
      var canonical := req.(version := Canonical(req.version));
      assert After(t, key, Submit(req, artifact, now)) == Submitted(t, canonical, artifact, now);
      GuardMeans(t, key, canonical.version, PlatformOf(canonical).key, CreatorOf(canonical));
      SubmittedShelf(t, canonical, artifact, now);
      LiveLatestIsVisible(t, key);
    }
  }

  lemma RefusedReviewIsInvisible(t: Tables, key: ItemKey, version: string, review: Review, now: string)
    requires Consistent(t, key) && IsPending(t.versions, version) && review.status != Approved
    requires ReviewPending(t, key, version, review, now).Done?
    ensures ViewOf(ReviewPending(t, key, version, review, now).tables) == ViewOf(t)
  {
    ReviewShape(t, key, version, review, now);
    RefusedShelf(t, key, version, review, now);
    LiveLatestIsVisible(t, key);
  }

  lemma RefusedShelf(t: Tables, key: ItemKey, version: string, review: Review, now: string)
    requires Consistent(t, key) && IsPending(t.versions, version) && review.status != Approved
    requires ReviewPending(t, key, version, review, now).Done?
    ensures ShelfOf(ReviewPending(t, key, version, review, now).tables) == ShelfOf(t)
  {
    ReviewShape(t, key, version, review, now);
    assert RowConsistent(key, version, t.versions[version]);
    ShelfUnchanged(t, ReviewPending(t, key, version, review, now).tables, version);
  }

  /** While a version is pending, a review that does not approve it is invisible. */
  lemma RefusalIsInvisible(t: Tables, key: ItemKey, op: Op)
    requires Consistent(t, key) && op.Judge? && PendingVersion(t).Some?
    requires NormalizeStatus(op.status, None) != Some(Approved)
    ensures ViewOf(After(t, key, op)) == ViewOf(t)
  {
    if Apply(t, key, op).Done? {
      var version := PendingVersion(t).value;
      PendingIsUnique(t, key, version);
      var review := Review(NormalizeStatus(op.status, None).value, TrimSpace(op.note), op.now, ReviewerOf(op.reviewer));
      RefusedReviewIsInvisible(t, key, version, review, op.now);
    }
  }

  // ---------------------------------------------------------- fixed content

  /** The columns a review, an unpublish or a rename never touches. */
  predicate SameContent(row: VersionRow, next: VersionRow) {
    next.content == row.content && next.snapshot == row.snapshot && next.checks == row.checks
  }

  ghost predicate SamePlatforms(t: Tables, next: Tables) {
    next.platforms.Keys == t.platforms.Keys && forall k :: k in t.platforms ==>
      next.platforms[k].spec == t.platforms[k].spec
  }

  /** The rows an operation other than Publish leaves in place. */
  ghost predicate ContentFrame(t: Tables, next: Tables) {
    && next.versions.Keys == t.versions.Keys
    && (forall v :: v in t.versions ==> SameContent(t.versions[v], next.versions[v]))
    && next.artifacts == t.artifacts
    && SamePlatforms(t, next)
  }

  lemma ReviewFrame(t: Tables, key: ItemKey, version: string, review: Review, now: string)
    requires version in t.versions && ReviewPending(t, key, version, review, now).Done?
    ensures ContentFrame(t, ReviewPending(t, key, version, review, now).tables)
  {
    var next := ReviewPending(t, key, version, review, now).tables;
    ReviewedRows(t, key, version, review, now);
    MarkedPlatforms(t, next, version, review.status == Approved, now);
    ChangedRow(t.versions, next.versions, version);
  }

  lemma MarkedPlatforms(t: Tables, next: Tables, version: string, published: bool, now: string)
    requires next.platforms == MarkPlatforms(t, version, published, now).platforms
    ensures SamePlatforms(t, next)
  {
  }

  lemma ChangedRow(versions: map<string, VersionRow>, next: map<string, VersionRow>, version: string)
    requires version in versions && version in next && next == versions[version := next[version]]
    requires SameContent(versions[version], next[version])
    ensures next.Keys == versions.Keys && forall v :: v in versions ==> SameContent(versions[v], next[v])
  {
  }

  lemma JudgeFrame(t: Tables, key: ItemKey, op: Op)
    requires op.Judge?
    ensures ContentFrame(t, After(t, key, op))
  {
    if Apply(t, key, op).Done? {
      var review := Review(NormalizeStatus(op.status, None).value, TrimSpace(op.note), op.now, ReviewerOf(op.reviewer));
      if PendingCandidate(t).Some? {
        ReviewFrame(t, key, PendingCandidate(t).value, review, op.now);
      }
    }
  }

  lemma RetireFrame(t: Tables, key: ItemKey, version: string, rows: seq<string>, now: string)
    requires Unpublish(t, key, version, rows, now).Done?
    ensures ContentFrame(t, Unpublish(t, key, version, rows, now).tables)
  {
    assert ContentFrame(t, Withdraw(t, Canonical(version), now));
  }

  lemma OtherStepsFrame(t: Tables, key: ItemKey, op: Op)
    requires !op.Submit?
    ensures ContentFrame(t, After(t, key, op))
  {
    match op
    case Judge(_, _, _, _) => JudgeFrame(t, key, op);
    case Retire(version, rows, now) =>
      if Unpublish(t, key, version, rows, now).Done? {
        RetireFrame(t, key, version, rows, now);
      }
    case CountOneView =>
    case RenameUser(oldId, newId) =>
  }

  /** What publication freezes: the columns and snapshot a version was published
      with, its files, and what each platform row says. */
  ghost predicate ContentKept(t: Tables, next: Tables, version: string)
    requires version in t.versions
  {
    && version in next.versions
    && SameContent(t.versions[version], next.versions[version])
    && forall k: (string, string) :: k.0 == version ==>
         && (k in next.artifacts <==> k in t.artifacts)
         && (k in t.artifacts ==> next.artifacts[k] == t.artifacts[k])
         && (k in next.platforms <==> k in t.platforms)
         && (k in t.platforms ==> next.platforms[k].spec == t.platforms[k].spec)
  }

  lemma SubmissionKeepsContent(t: Tables, req: Request, artifact: Option<Artifact>, now: string, version: string)
    requires version in t.versions && req.version != version
    ensures ContentKept(t, Submitted(t, req, artifact, now), version)
  {
  }

  /** No operation, in any state, changes the content of a published version. */
  lemma PublishedContentIsFixed(t: Tables, key: ItemKey, op: Op, version: string)
    requires version in t.versions && t.versions[version].published
    ensures ContentKept(t, After(t, key, op), version)
  {
    if op.Submit? {
      if Apply(t, key, op).Done? {
        var canonical := op.req.(version := Canonical(op.req.version));
        assert canonical.version != version;
        assert After(t, key, op) == Submitted(t, canonical, op.artifact, op.now);
        SubmissionKeepsContent(t, canonical, op.artifact, op.now, version);
      }
    } else {
      OtherStepsFrame(t, key, op);
    }
  }

  // -------------------------------------------------------- rollback succeeds

  /** Every version can be restored from its snapshot. */
  predicate Restorable(t: Tables, key: ItemKey) {
    forall v :: v in t.versions ==> DecodeSnapshot(key, v, t.versions[v]).Some?
  }

  /** With restorable versions, unpublishing the current version cannot fail. */
  lemma UnpublishFailsOnlyOnInput(t: Tables, key: ItemKey, version: string, rows: seq<string>, now: string)
    requires Consistent(t, key) && Restorable(t, key) && RowsScanned(t, version, rows, now)
    ensures Unpublish(t, key, version, rows, now).Done?
      <==> Canonical(version) != "" && t.item.Some? && Canonical(version) == t.item.value.latest
  {
    if Canonical(version) != "" && t.item.Some? {
      var latest := t.item.value.latest;
      assert RowConsistent(key, latest, t.versions[latest]);
      if Canonical(version) == latest && Latest(rows) != "" {
        var withdrawn := Withdraw(t, latest, now);
        ReplacementIsVisible(withdrawn, rows);
        assert withdrawn.versions[Latest(rows)] == t.versions[Latest(rows)];
        assert DecodeSnapshot(key, Latest(rows), t.versions[Latest(rows)]).Some?;
      }
    }
  }

  /** A version's snapshot is the one it had, or the one just submitted. */
  lemma StepKeepsSnapshots(t: Tables, key: ItemKey, op: Op, version: string)
    requires version in After(t, key, op).versions
    ensures var snapshot := After(t, key, op).versions[version].snapshot;
      || (version in t.versions && snapshot == t.versions[version].snapshot)
      || (op.Submit? && snapshot == Some(SnapshotOf(op.req.(version := Canonical(op.req.version)))))
  {
    if op.Submit? {
      if Apply(t, key, op).Done? {
        var canonical := op.req.(version := Canonical(op.req.version));
        assert After(t, key, op) == Submitted(t, canonical, op.artifact, op.now);
      }
    } else {
      OtherStepsFrame(t, key, op);
      assert SameContent(t.versions[version], After(t, key, op).versions[version]);
    }
  }

  predicate Named(row: VersionRow) { row.snapshot.Some? && TrimSpace(row.snapshot.value.name) != "" }

  /** On consistent rows, restorable means that every snapshot has a name. */
  lemma RestorableMeansNamed(t: Tables, key: ItemKey)
    requires Consistent(t, key)
    ensures Restorable(t, key) <==> forall v :: v in t.versions ==> Named(t.versions[v])
  {
    forall v | v in t.versions ensures DecodeSnapshot(key, v, t.versions[v]).Some? <==> Named(t.versions[v]) {
      assert RowConsistent(key, v, t.versions[v]);
      if t.versions[v].snapshot.Some? {
        DecodesUnlessBlank(key, v, t.versions[v]);
      }
    }
  }

  /** Requests with a name keep every version restorable. */
  lemma StepKeepsRestorable(t: Tables, key: ItemKey, op: Op)
    requires Consistent(t, key) && Restorable(t, key) && Legit(t, key, op)
    requires op.Submit? ==> TrimSpace(op.req.name) != ""
    ensures Restorable(After(t, key, op), key)
  {
    var next := After(t, key, op);
    StepKeepsConsistent(t, key, op);
    RestorableMeansNamed(t, key);
    RestorableMeansNamed(next, key);
    forall v | v in next.versions ensures Named(next.versions[v]) {
      StepKeepsSnapshots(t, key, op, v);
    }
  }

  lemma {:induction false} NamedRunsAreRestorable(key: ItemKey, ops: seq<Op>, states: seq<Tables>)
    requires Run(key, ops, states)
    requires forall i :: 0 <= i < |ops| && ops[i].Submit? ==> TrimSpace(ops[i].req.name) != ""
    ensures forall i :: 0 <= i < |states| ==> Restorable(states[i], key)
  {
    if ops != [] {
      RunPrefix(key, ops, states);
      RunsAreConsistent(key, ops, states);
      var init := states[..|states| - 1];
      NamedRunsAreRestorable(key, ops[..|ops| - 1], init);
      assert init[|ops| - 1] == states[|ops| - 1];
      StepKeepsRestorable(states[|ops| - 1], key, ops[|ops| - 1]);
      forall i | 0 <= i < |states| ensures Restorable(states[i], key) {
        assert i < |init| ==> init[i] == states[i];
      }
    }
  }
}

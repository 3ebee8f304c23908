/** The release operations of store.go as the server runs them: a transaction works
    on the rows of one item statement by statement, a commit installs the result, and
    a return without commit is a rollback. Each operation is proved to do what module
    Release says, for the item it names and for no other. */
module Store {
  import Startup
  import opened Text
  import opened SemVer
  import Versions
  import opened Market
  import opened Release
  import opened Consistency

  class Transaction {
    var item: Option<ItemRow>
    var versions: map<string, VersionRow>
    var platforms: map<(string, string), PlatformRow>
    var artifacts: map<(string, string), ArtifactRow>
    var taxonomy: Taxonomy
    var events: seq<Event>

    function Rows(): Tables
      reads this
    {
      Tables(item, versions, platforms, artifacts, taxonomy, events)
    }

    constructor (t: Tables)
      ensures Rows() == t
    {
      item, versions, platforms := t.item, t.versions, t.platforms;
      artifacts, taxonomy, events := t.artifacts, t.taxonomy, t.events;
    }

    /** The single-row query for a pending version; needSnapshot skips rows without one. */
    method FindPending(needSnapshot: bool) returns (row: Option<string>)
      requires OnePending(versions)
      ensures row == if needSnapshot then PendingCandidate(Rows()) else PendingVersion(Rows())
    {
      row := None;
      var todo := versions.Keys;
      while todo != {}
        invariant todo <= versions.Keys
        invariant row.Some? ==> IsPending(versions, row.value) && (needSnapshot ==> versions[row.value].snapshot.Some?)
        invariant row.None? ==> forall v :: v in versions.Keys - todo ==>
          !(IsPending(versions, v) && (needSnapshot ==> versions[v].snapshot.Some?))
        decreases todo
      {
        var v :| v in todo;
        todo := todo - {v};
        if versions[v].review.status == Pending && (needSnapshot ==> versions[v].snapshot.Some?) {
          row := Some(v);
        }
      }
      ghost var pending := set v | v in versions && IsPending(versions, v);
      ghost var complete := set v | v in versions && IsPending(versions, v) && versions[v].snapshot.Some?;
      ghost var rows := if needSnapshot then complete else pending;
      assert row.Some? ==> row.value in rows;
      assert row.None? ==> rows == {} by {
        assert versions.Keys - todo == versions.Keys;
      }
      assert Rows().versions == versions;
    }

    /** replaceSubmissionTaxonomyTx */
    method WriteTaxonomy(req: Request)
      modifies this`taxonomy
      ensures taxonomy == ReplaceTaxonomy(old(taxonomy), req)
    {
      var tags: set<string> := {};
      for i := 0 to |req.tags|
        invariant tags == TagsOf(req.tags[..i])
        invariant taxonomy == old(taxonomy)
      {
        var tag := TrimSpace(req.tags[i]);
        assert req.tags[..i + 1] == req.tags[..i] + [req.tags[i]];
        TagsOfSnoc(req.tags[..i], req.tags[i]);
        if tag == "" {
          continue;
        }
        tags := tags + {tag};
      }
      assert req.tags[..|req.tags|] == req.tags;
      taxonomy := taxonomy.(tags := tags);
      if req.itemType != Skill {
        return;
      }
      var spec := if req.skill.Some? then req.skill.value else DEFAULT_SKILL;
      taxonomy := taxonomy.(profile := Some(ProfileOf(spec)), included := map[]);
      if spec.kind != "package" {
        return;
      }
      var rows: map<string, IncludedRow> := map[];
      for i := 0 to |spec.included|
        invariant rows == IncludedRows(spec.included[..i])
        invariant taxonomy == Taxonomy(tags, Some(ProfileOf(spec)), map[])
      {
        var included := spec.included[i];
        assert spec.included[..i + 1][..i] == spec.included[..i];
        var sortOrder := included.sortOrder;
        if sortOrder == 0 {
          sortOrder := i + 1;
        }
        rows := rows[included.id := IncludedRow(included.optional, sortOrder)];
      }
      assert spec.included[..|spec.included|] == spec.included;
      taxonomy := taxonomy.(included := rows);
    }

    /** The upserts of Publish: item, version, platform, taxonomy, artifact, event. */
    method WriteSubmission(req: Request, artifact: Option<Artifact>, now: string)
      modifies this
      ensures Rows() == Submitted(old(Rows()), req, artifact, now)
    {
      ghost var before := Rows();
      var event := SubmittedEvent(Rows(), req, now);
      WriteItem(req, now);
      WriteRelease(req, now);
      WriteArtifact(req.version, artifact, now);
      Log(event);
      ItemsApart(before, before.(item := item, taxonomy := taxonomy), req, now);
    }

    /** The item upsert and the taxonomy, both spared when the item is published. */
    method WriteItem(req: Request, now: string)
      modifies this`item, this`taxonomy
      ensures item == if IsPublished(old(Rows())) then old(item) else Some(SubmittedItem(old(Rows()), req, now))
      ensures taxonomy == if IsPublished(old(Rows())) then old(taxonomy) else ReplaceTaxonomy(old(taxonomy), req)
    {
      var isUpdate := item.Some? && item.value.published;
      if !isUpdate {
        item := Some(SubmittedItem(Rows(), req, now));
        WriteTaxonomy(req);
      }
    }

    method WriteArtifact(version: string, artifact: Option<Artifact>, now: string)
      modifies this`artifacts
      ensures artifacts == SubmittedArtifacts(old(Rows()), version, artifact, now)
    {
      if artifact.Some? {
        artifacts := artifacts[(version, artifact.value.platformKey) := ArtifactRow(artifact.value, now)];
      }
    }

    /** The version and platform upserts; neither reads the item row. */
    method WriteRelease(req: Request, now: string)
      modifies this`versions, this`platforms
      ensures versions == old(versions)[req.version := SubmittedVersion(old(Rows()), req, now)]
      ensures platforms
        == old(platforms)[(req.version, PlatformOf(req).key) := SubmittedPlatform(old(Rows()), req, now)]
    {
      var row, platform := SubmittedVersion(Rows(), req, now), SubmittedPlatform(Rows(), req, now);
      versions := versions[req.version := row];
      platforms := platforms[(req.version, PlatformOf(req).key) := platform];
    }

    /** applyVersionSnapshotTx */
    method ApplySnapshot(req: Request, creator: string, how: Activation)
      modifies this`item, this`taxonomy
      ensures Rows() == Activate(old(Rows()), req, creator, how)
    {
      var views := if item.Some? then item.value.views else 0;
      item := Some(ItemRow(PayloadOf(req), req.version, creator, how.review, true, how.submittedAt,
                           how.publishedAt, how.updatedAt, views));
      WriteTaxonomy(req);
    }

    method SetReview(version: string, review: Review, published: bool)
      modifies this`versions
      ensures Rows() == MarkVersion(old(Rows()), version, review, published)
    {
      if version in versions {
        versions := versions[version := versions[version].(review := review, published := published)];
      }
    }

    method SetPlatforms(version: string, published: bool, now: string)
      modifies this`platforms
      ensures Rows() == MarkPlatforms(old(Rows()), version, published, now)
    {
      platforms := map key | key in platforms ::
        if key.0 == version then platforms[key].(published := published, updatedAt := now) else platforms[key];
    }

    method Log(event: Event)
      modifies this`events
      ensures Rows() == Record(old(Rows()), event)
    {
      events := events + [event];
    }

    /** findLatestPublishedVersion: the rows come in some order. */
    method FindLatestPublished() returns (latest: string, ghost rows: seq<string>)
      ensures latest == "" ==> forall v :: v in PublishedVersions(Rows()) ==> Parse(v).None?
      ensures latest != "" ==> latest in PublishedVersions(Rows()) && Parse(latest).Some?
      ensures latest != "" ==> forall v :: v in PublishedVersions(Rows()) && Parse(v).Some? ==>
        Compare(v, latest).value <= 0
      ensures Lists(rows, PublishedVersions(Rows())) && latest == Latest(rows)
    {
      var todo := set v | v in versions && versions[v].published && versions[v].review.status == Approved;
      ghost var all := todo;
      var scan: seq<string> := [];
      while todo != {}
        invariant todo <= all
        invariant forall v :: v in scan <==> v in all - todo
        decreases todo
      {
        var v :| v in todo;
        todo := todo - {v};
        scan := scan + [v];
      }
      rows := scan;
      assert all == PublishedVersions(Rows());
      latest := Versions.FindLatest(scan);
    }
  }

  /** The version and platform rows do not depend on the item row or the taxonomy. */
  lemma ItemsApart(t: Tables, next: Tables, req: Request, now: string)
    requires next.versions == t.versions && next.platforms == t.platforms
    ensures SubmittedVersion(next, req, now) == SubmittedVersion(t, req, now)
    ensures SubmittedPlatform(next, req, now) == SubmittedPlatform(t, req, now)
  {
  }

  lemma TagsOfSnoc(tags: seq<string>, tag: string)
    ensures TagsOf(tags + [tag]) == TagsOf(tags) + if TrimSpace(tag) == "" then {} else {TrimSpace(tag)}
  {
    var added: set<string> := if TrimSpace(tag) == "" then {} else {TrimSpace(tag)};
    forall t | t in TagsOf(tags + [tag]) ensures t in TagsOf(tags) + added {
      var raw :| raw in tags + [tag] && TrimSpace(raw) == t && t != "";
      assert raw in tags || raw == tag;
    }
    forall t | t in TagsOf(tags) + added ensures t in TagsOf(tags + [tag]) {
      if t in TagsOf(tags) {
        var raw :| raw in tags && TrimSpace(raw) == t && t != "";
        assert raw in tags + [tag];
      } else {
        assert tag in tags + [tag];
      }
    }
  }

  /** A transaction on one item commits its outcome or leaves the store untouched. */
  ghost predicate Settles(before: map<ItemKey, Tables>, after: map<ItemKey, Tables>, key: ItemKey,
                          outcome: Outcome, error: Option<StoreError>)
  {
    match outcome
    case Done(tables) => error.None? && after == before[key := tables]
    case Failed(reason) => error == Some(reason) && after == before
  }

  class MarketStore {
    var db: map<ItemKey, Tables>

    ghost predicate Valid()
      reads this
    {
      forall key :: key in db ==> Consistent(db[key], key)
    }

    function Slice(key: ItemKey): Tables
      reads this
    {
      SliceOf(db, key)
    }

    constructor ()
      ensures Valid() && db == map[]
    {
      db := map[];
    }

    method Commit(key: ItemKey, tables: Tables)
      requires Valid() && Consistent(tables, key)
      modifies this
      ensures Valid() && db == old(db)[key := tables]
    {
      db := db[key := tables];
    }

    /** The refusals of Publish, in its order. */
    method CheckSubmission(tx: Transaction, version: string, platform: string, creator: string)
      returns (refused: Option<StoreError>)
      requires OnePending(tx.versions)
      ensures refused == PublishGuard(tx.Rows(), version, platform, creator)
    {
      if tx.item.Some? && Conflict(tx.item.value.creator, creator) {
        return Some(PublishForbidden);
      }
      var pending := tx.FindPending(false);
      if pending.Some? {
        if Canonical(pending.value) != version || Conflict(tx.versions[pending.value].creator, creator) {
          return Some(PendingReleaseExists);
        }
        if (version, platform) in tx.platforms {
          return Some(PublishedVersionExists);
        }
      }
      if tx.item.Some? && tx.item.value.published {
        var comparison, comparable := Versions.CompareSemanticVersions(version, tx.item.value.latest);
        ComparatorTotal(version, tx.item.value.latest);
        if !comparable || comparison <= 0 {
          return Some(VersionNotNewer);
        }
      }
      if version in tx.versions && tx.versions[version].published {
        return Some(PublishedVersionExists);
      }
      return None;
    }

    method Publish(request: Request, artifact: Option<Artifact>, now: string) returns (error: Option<StoreError>)
      requires Valid()
      modifies this
      ensures Valid()
      ensures Settles(old(db), db, KeyOf(request), Release.Publish(old(Slice(KeyOf(request))), request, artifact, now),
                      error)
    {
      var req := request.(version := Canonical(request.version));
      var key := KeyOf(req);
      var before := Slice(key);
      EmptyIsConsistent(key);
      var tx := new Transaction(before);
      error := CheckSubmission(tx, req.version, PlatformOf(req).key, CreatorOf(req));
      if error.Some? {
        return;
      }
      tx.WriteSubmission(req, artifact, now);
      assert Release.Publish(before, request, artifact, now) == Done(tx.Rows());
      PublishKeepsConsistent(before, key, request, artifact, now);
      Commit(key, tx.Rows());
    }

    /** updateLegacyReviewTx */
    method ReviewLatest(tx: Transaction, review: Review, now: string) returns (error: Option<StoreError>)
      modifies tx
      ensures match ReviewLegacy(old(tx.Rows()), review, now)
        case Done(next) => error.None? && tx.Rows() == next
        case Failed(reason) => error == Some(reason)
    {
      if tx.item.None? {
        return Some(NoRows);
      }
      var prior := tx.item.value;
      var published := review.status == Approved;
      tx.item := Some(prior.(review := review, published := published, updatedAt := now));
      tx.SetReview(prior.latest, review, published);
      tx.Log(Event(prior.latest, StatusText(review.status), Some(prior.review.status), review.status,
                   review.reviewedBy, review.note, now));
      return None;
    }

    /** The part of UpdateReview that decides a pending version. */
    method ReviewSubmission(tx: Transaction, key: ItemKey, version: string, review: Review, now: string)
      returns (error: Option<StoreError>)
      requires version in tx.versions
      modifies tx
      ensures match ReviewPending(old(tx.Rows()), key, version, review, now)
        case Done(next) => error.None? && tx.Rows() == next
        case Failed(reason) => error == Some(reason)
    {
      var row := tx.versions[version];
      var decoded := DecodeSnapshot(key, version, row);
      if decoded.None? {
        return Some(SnapshotMissing);
      }
      var published := false;
      if review.status == Approved {
        published := true;
        tx.ApplySnapshot(decoded.value, row.creator, Activation(review, row.submittedAt, now, now));
      } else if tx.item.Some? && !tx.item.value.published && Canonical(tx.item.value.latest) == version {
        tx.item := Some(tx.item.value.(review := review, updatedAt := now));
      }
      tx.SetReview(version, review, published);
      tx.SetPlatforms(version, published, now);
      tx.Log(Event(version, StatusText(review.status), Some(row.review.status), review.status,
                   review.reviewedBy, review.note, now));
      return None;
    }

    method UpdateReview(key: ItemKey, statusText: string, note: string, reviewer: string, now: string)
      returns (error: Option<StoreError>)
      requires Valid()
      modifies this
      ensures Valid()
      ensures Settles(old(db), db, key, Release.UpdateReview(old(Slice(key)), key, statusText, note, reviewer, now),
                      error)
    {
      var status := NormalizeStatus(statusText, None);
      if status.None? {
        return Some(InvalidStatus);
      }
      var review := Review(status.value, TrimSpace(note), now, ReviewerOf(reviewer));
      var before := Slice(key);
      EmptyIsConsistent(key);
      var tx := new Transaction(before);
      var candidate := tx.FindPending(true);
      if candidate.None? {
        error := ReviewLatest(tx, review, now);
      } else {
        error := ReviewSubmission(tx, key, candidate.value, review, now);
      }
      if error.None? {
        StepKeepsConsistent(before, key, Judge(statusText, note, reviewer, now));
        Commit(key, tx.Rows());
      }
    }

    /** The withdrawal, the search for a replacement and its activation. */
    method Unpublish(key: ItemKey, versionText: string, now: string)
      returns (error: Option<StoreError>, ghost rows: seq<string>)
      requires Valid()
      modifies this
      ensures Valid()
      ensures RowsScanned(old(Slice(key)), versionText, rows, now)
        || Canonical(versionText) == "" || old(Slice(key)).item.None?
        || Canonical(versionText) != Canonical(old(Slice(key)).item.value.latest)
      ensures Settles(old(db), db, key, Release.Unpublish(old(Slice(key)), key, versionText, rows, now), error)
    {
      rows := [];
      var version := Canonical(versionText);
      if version == "" {
        return Some(VersionRequired), rows;
      }
      var before := Slice(key);
      EmptyIsConsistent(key);
      var tx := new Transaction(before);
      if tx.item.None? {
        return Some(NoRows), rows;
      }
      if version != Canonical(tx.item.value.latest) {
        return Some(UnpublishNotLatest), rows;
      }
      if version !in tx.versions {
        return Some(NoRows), rows;
      }
      tx.versions := tx.versions[version := tx.versions[version].(published := false)];
      tx.SetPlatforms(version, false, now);
      assert tx.Rows() == Withdraw(before, version, now);
      var replacement: string;
      replacement, rows := tx.FindLatestPublished();
      error := Replace(tx, key, replacement, now);
      if error.None? {
        UnpublishKeepsConsistent(before, key, versionText, rows, now);
        Commit(key, tx.Rows());
      }
    }

    /** Restores the replacement, or takes the item offline when there is none. */
    method Replace(tx: Transaction, key: ItemKey, replacement: string, now: string) returns (error: Option<StoreError>)
      requires tx.item.Some?
      modifies tx
      ensures match FallBack(old(tx.Rows()), key, replacement, now)
        case Done(next) => error.None? && tx.Rows() == next
        case Failed(reason) => error == Some(reason)
    {
      if replacement == "" {
        tx.item := Some(tx.item.value.(published := false, updatedAt := now));
        return None;
      }
      if replacement !in tx.versions {
        return Some(NoRows);
      }
      var row := tx.versions[replacement];
      var candidate := DecodeSnapshot(key, replacement, row);
      if candidate.None? {
        return Some(SnapshotMissing);
      }
      var publishedAt := row.publishedAt;
      if publishedAt == "" {
        publishedAt := row.submittedAt;
      }
      tx.ApplySnapshot(candidate.value, row.creator,
                       Activation(row.review.(status := Approved), row.submittedAt, publishedAt, now));
      return None;
    }

    /** IncrementDetailViewCount with its retries: given how the database takes each
        attempt and which pauses are cut short. A view is counted once or not at all. */
    method IncrementDetailViewCount(key: ItemKey, attempts: seq<Attempt>, cut: seq<bool>)
      returns (error: Option<StoreError>)
      requires Valid() && |attempts| == RETRIES + 1 && |cut| == RETRIES
      modifies this
      ensures Valid()
      ensures match AttemptsFail(attempts, cut, 0)
        case None => Settles(old(db), db, key, Release.CountView(old(Slice(key))), error)
        case Some(reason) => error == Some(reason) && db == old(db)
    {
      var attempt := 0;
      while true
        invariant attempt <= RETRIES && AttemptsFail(attempts, cut, 0) == AttemptsFail(attempts, cut, attempt)
        invariant db == old(db)
        decreases RETRIES - attempt
      {
        if attempts[attempt].Served? {
          error := CountOnce(key);
          return;
        }
        if !attempts[attempt].Busy? {
          return Some(DatabaseFailed);
        }
        if attempt >= RETRIES {
          return Some(DatabaseBusy);
        }
        if cut[attempt] {
          return Some(TimedOut);
        }
        attempt := attempt + 1;
      }
    }

    method CountOnce(key: ItemKey) returns (error: Option<StoreError>)
      requires Valid()
      modifies this
      ensures Valid()
      ensures Settles(old(db), db, key, Release.CountView(old(Slice(key))), error)
    {
      var before := Slice(key);
      EmptyIsConsistent(key);
      CountKeepsConsistent(before, key);
      var tx := new Transaction(before);
      error := AddView(tx);
      if error.None? {
        Commit(key, tx.Rows());
      }
    }

    /** The one update statement: its where clause asks for a live item. */
    method AddView(tx: Transaction) returns (error: Option<StoreError>)
      modifies tx`item
      ensures match CountView(old(tx.Rows()))
        case Done(next) => error.None? && tx.Rows() == next
        case Failed(reason) => error == Some(reason)
    {
      if !(tx.item.Some? && tx.item.value.published && tx.item.value.review.status == Approved) {
        return Some(NoRows);
      }
      tx.item := Some(tx.item.value.(views := tx.item.value.views + 1));
      return None;
    }

    /** The items and versions statements of rekeyMarketUser run over every item. */
    method RenameOwner(oldId: string, newId: string)
      requires Valid()
      modifies this
      ensures Valid()
      ensures db == Renamed(old(db), oldId, newId)
    {
      forall key | key in db ensures Consistent(Rekey(db[key], oldId, newId), key) {
        RekeyKeepsConsistent(db[key], key, oldId, newId);
      }
      db := map key | key in db :: Rekey(db[key], oldId, newId);
    }

    /** backfillVersionPlatforms, at each start of the server. */
    method BackfillVersionPlatforms()
      requires Valid()
      modifies this
      ensures Valid()
      ensures db == map key | key in old(db) :: Startup.Restarted(old(db)[key])
    {
      forall key | key in db ensures Consistent(Startup.Restarted(db[key]), key) {
        Startup.RestartKeepsConsistent(db[key], key);
      }
      db := map key | key in db :: Startup.WithUniversals(db[key]);
      db := map key | key in db :: Startup.WithFilePlatforms(db[key]);
    }
  }

  lemma CountKeepsConsistent(t: Tables, key: ItemKey)
    requires Consistent(t, key)
    ensures CountView(t).Done? ==> Consistent(CountView(t).tables, key)
  {
  }

  lemma EmptyIsConsistent(key: ItemKey)
    ensures Consistent(NO_ROWS, key)
  {
  }
}

/** The invariant of one item's rows in every run, legacy reviews included: the
    item row, its tags and its skill profile are a materialised view of the version
    row that latest_version names, and the review flags agree. */
module Consistency {
  import opened Text
  import opened SemVer
  import opened Market
  import opened Release

  // --------------------------------------------------------------- invariant

  /** A version row agrees with its key and with the snapshot it carries. */
  predicate RowConsistent(key: ItemKey, version: string, row: VersionRow) {
    && Canonical(version) == version
    && (row.published ==> row.review.status == Approved)
    && (row.review.status == Pending ==> row.snapshot.Some?)
    && (row.snapshot.Some? ==>
          && KeyOf(row.snapshot.value) == key
          && row.snapshot.value.version == version
          && row.content == ContentOf(row.snapshot.value))
  }

  predicate RowsConsistent(versions: map<string, VersionRow>, key: ItemKey) {
    forall v :: v in versions ==> RowConsistent(key, v, versions[v])
  }

  ghost predicate OnePending(versions: map<string, VersionRow>) {
    forall v, w :: IsPending(versions, v) && IsPending(versions, w) ==> v == w
  }

  /** The item row repeats the lifecycle columns of a version row and shows its snapshot. */
  predicate Mirrors(item: ItemRow, taxonomy: Taxonomy, row: VersionRow) {
    && row.snapshot.Some?
    && item.payload == PayloadOf(row.snapshot.value)
    && taxonomy == TaxonomyOf(row.snapshot.value)
    && item.creator == row.creator
    && item.review == row.review
    && item.published == row.published
    && item.submittedAt == row.submittedAt
  }

  predicate Materialised(item: Option<ItemRow>, taxonomy: Taxonomy, versions: map<string, VersionRow>) {
    match item
    case None => versions == map[] && taxonomy == NO_TAXONOMY
    case Some(item) => item.latest in versions && Mirrors(item, taxonomy, versions[item.latest])
  }

  ghost predicate Consistent(t: Tables, key: ItemKey) {
    RowsConsistent(t.versions, key) && OnePending(t.versions) && Materialised(t.item, t.taxonomy, t.versions)
  }

  // ---------------------------------------------------------------- queries

  /** With one pending row at most, both pending queries answer with it. */
  lemma PendingIsUnique(t: Tables, key: ItemKey, version: string)
    requires Consistent(t, key)
    ensures PendingVersion(t) == PendingCandidate(t)
    ensures IsPending(t.versions, version) <==> PendingVersion(t) == Some(version)
  {
    var pending := set v | v in t.versions && IsPending(t.versions, v);
    assert pending == (set v | v in t.versions && IsPending(t.versions, v) && t.versions[v].snapshot.Some?);
    assert IsPending(t.versions, version) ==> version in pending;
    assert PendingVersion(t).Some? ==> IsPending(t.versions, PendingVersion(t).value);
  }

  lemma NothingPending(t: Tables, key: ItemKey)
    requires Consistent(t, key)
    ensures PendingVersion(t).None? <==> forall v :: !IsPending(t.versions, v)
  {
    forall v ensures PendingVersion(t).None? ==> !IsPending(t.versions, v) { PendingIsUnique(t, key, v); }
    if PendingVersion(t).Some? {
      PendingIsUnique(t, key, PendingVersion(t).value);
    }
  }

  /** On a consistent row only a blank name keeps the snapshot from decoding. */
  lemma DecodesUnlessBlank(key: ItemKey, version: string, row: VersionRow)
    requires RowConsistent(key, version, row) && row.snapshot.Some?
    ensures DecodeSnapshot(key, version, row).Some? <==> TrimSpace(row.snapshot.value.name) != ""
    ensures DecodeSnapshot(key, version, row).Some? ==>
      DecodeSnapshot(key, version, row).value == row.snapshot.value.(creatorId := row.creator)
  {
  }

  /** Only the tags of a non-skill change, and its profile rows are never there. */
  lemma TaxonomyReplaced(prior: Request, req: Request)
    requires KeyOf(prior) == KeyOf(req)
    ensures ReplaceTaxonomy(TaxonomyOf(prior), req) == TaxonomyOf(req)
  {
  }

  lemma ItemTaxonomy(t: Tables, key: ItemKey, req: Request)
    requires Consistent(t, key) && KeyOf(req) == key
    ensures ReplaceTaxonomy(t.taxonomy, req) == TaxonomyOf(req)
  {
    if t.item.Some? {
      var row := t.versions[t.item.value.latest];
      assert RowConsistent(key, t.item.value.latest, row);
      TaxonomyReplaced(row.snapshot.value, req);
    }
  }

  // ----------------------------------------------------------- preservation

  lemma RowUpdate(versions: map<string, VersionRow>, key: ItemKey, version: string, row: VersionRow)
    requires RowsConsistent(versions, key) && OnePending(versions) && RowConsistent(key, version, row)
    requires row.review.status == Pending ==> forall v :: IsPending(versions, v) ==> v == version
    ensures RowsConsistent(versions[version := row], key) && OnePending(versions[version := row])
  {
    var next := versions[version := row];
    forall v, w | IsPending(next, v) && IsPending(next, w) ensures v == w {
      assert v != version ==> IsPending(versions, v);
      assert w != version ==> IsPending(versions, w);
    }
  }

  lemma SubmittedKeepsConsistent(t: Tables, key: ItemKey, req: Request, artifact: Option<Artifact>, now: string)
    requires Consistent(t, key) && KeyOf(req) == key && Canonical(req.version) == req.version
    requires IsPublished(t) ==> req.version != t.item.value.latest
    requires forall v :: IsPending(t.versions, v) ==> v == req.version
    ensures Consistent(Submitted(t, req, artifact, now), key)
  {
    var row := SubmittedVersion(t, req, now);
    RowUpdate(t.versions, key, req.version, row);
    ItemTaxonomy(t, key, req);
    var next := Submitted(t, req, artifact, now);
    if !IsPublished(t) {
      assert TaxonomyOf(SnapshotOf(req)) == TaxonomyOf(req) && PayloadOf(SnapshotOf(req)) == PayloadOf(req);
      assert Mirrors(SubmittedItem(t, req, now), TaxonomyOf(req), row);
    }
  }

  lemma GuardMeans(t: Tables, key: ItemKey, version: string, platform: string, creator: string)
    requires Consistent(t, key) && PublishGuard(t, version, platform, creator).None?
    ensures IsPublished(t) ==> Newer(version, t.item.value.latest) && version != t.item.value.latest
    ensures forall v :: IsPending(t.versions, v) ==> v == version
    ensures version in t.versions ==> !t.versions[version].published
  {
    forall v | IsPending(t.versions, v) ensures v == version {
      PendingIsUnique(t, key, v);
      assert RowConsistent(key, v, t.versions[v]);
    }
    if IsPublished(t) {
      NewerIsStrictOrder(version, t.item.value.latest, version);
    }
  }

  lemma PublishKeepsConsistent(t: Tables, key: ItemKey, req: Request, artifact: Option<Artifact>, now: string)
    requires Consistent(t, key) && KeyOf(req) == key
    requires Publish(t, req, artifact, now).Done?
    ensures Consistent(Publish(t, req, artifact, now).tables, key)
  {
    var canonical := req.(version := Canonical(req.version));
    CanonicalIdempotent(req.version);
    GuardMeans(t, key, canonical.version, PlatformOf(canonical).key, CreatorOf(canonical));
    SubmittedKeepsConsistent(t, key, canonical, artifact, now);
  }

  lemma ActivatedMirrors(t: Tables, key: ItemKey, version: string, row: VersionRow, how: Activation)
    requires Consistent(t, key) && RowConsistent(key, version, row) && DecodeSnapshot(key, version, row).Some?
    ensures var decoded := DecodeSnapshot(key, version, row).value;
      var next := Activate(t, decoded, row.creator, how);
      && next.item.value.latest == version
      && Mirrors(next.item.value, next.taxonomy,
                 row.(review := how.review, published := true, submittedAt := how.submittedAt))
  {
    DecodesUnlessBlank(key, version, row);
    var decoded := DecodeSnapshot(key, version, row).value;
    ItemTaxonomy(t, key, decoded);
    assert PayloadOf(decoded) == PayloadOf(row.snapshot.value) && TaxonomyOf(decoded) == TaxonomyOf(row.snapshot.value);
  }

  lemma RefusalMirrors(t: Tables, key: ItemKey, version: string, review: Review, now: string)
    requires Consistent(t, key) && IsPending(t.versions, version) && review.status != Approved
    ensures Materialised(ShowRefusal(t, version, review, now).item, t.taxonomy,
                         t.versions[version := t.versions[version].(review := review, published := false)])
  {
    assert RowConsistent(key, version, t.versions[version]);
    var latest := t.item.value.latest;
    assert RowConsistent(key, latest, t.versions[latest]);
  }

  /** A review of a pending row changes that row and what the item shows, nothing else. */
  lemma ReviewShape(t: Tables, key: ItemKey, version: string, review: Review, now: string)
    requires version in t.versions && ReviewPending(t, key, version, review, now).Done?
    ensures var next := ReviewPending(t, key, version, review, now).tables;
      var row := t.versions[version];
      var decoded := DecodeSnapshot(key, version, row);
      && decoded.Some?
      && next.versions == t.versions[version := row.(review := review, published := review.status == Approved)]
      && next.artifacts == t.artifacts
      && (review.status == Approved ==>
            var shown := Activate(t, decoded.value, row.creator, Activation(review, row.submittedAt, now, now));
            next.item == shown.item && next.taxonomy == shown.taxonomy)
      && (review.status != Approved ==>
            next.item == ShowRefusal(t, version, review, now).item && next.taxonomy == t.taxonomy)
  {
    ReviewedRows(t, key, version, review, now);
    if review.status == Approved {
      ApprovedItem(t, key, version, review, now);
    } else {
      RefusedItem(t, key, version, review, now);
    }
  }

  lemma ReviewedRows(t: Tables, key: ItemKey, version: string, review: Review, now: string)
    requires version in t.versions && ReviewPending(t, key, version, review, now).Done?
    ensures var next, row := ReviewPending(t, key, version, review, now).tables, t.versions[version];
      && DecodeSnapshot(key, version, row).Some?
      && next.versions == t.versions[version := row.(review := review, published := review.status == Approved)]
      && next.artifacts == t.artifacts
      && next.platforms == MarkPlatforms(t, version, review.status == Approved, now).platforms
  {
    var row, published := t.versions[version], review.status == Approved;
    var decoded := DecodeSnapshot(key, version, row).value;
    var shown := if published then Activate(t, decoded, row.creator, Activation(review, row.submittedAt, now, now))
                 else ShowRefusal(t, version, review, now);
    assert shown.versions == t.versions && shown.artifacts == t.artifacts && shown.platforms == t.platforms;
    MarkedRowsOf(t, shown, version, review, published, now);
  }

  lemma MarkedRowsOf(t: Tables, shown: Tables, version: string, review: Review, published: bool, now: string)
    requires version in t.versions
    requires shown.versions == t.versions && shown.artifacts == t.artifacts && shown.platforms == t.platforms
    ensures var next := MarkPlatforms(MarkVersion(shown, version, review, published), version, published, now);
      && next.versions == t.versions[version := t.versions[version].(review := review, published := published)]
      && next.artifacts == t.artifacts
      && next.platforms == MarkPlatforms(t, version, published, now).platforms
  {
  }

  lemma ApprovedItem(t: Tables, key: ItemKey, version: string, review: Review, now: string)
    requires version in t.versions && ReviewPending(t, key, version, review, now).Done? && review.status == Approved
    ensures var next, row := ReviewPending(t, key, version, review, now).tables, t.versions[version];
      && DecodeSnapshot(key, version, row).Some?
      && var how := Activation(review, row.submittedAt, now, now);
        var shown := Activate(t, DecodeSnapshot(key, version, row).value, row.creator, how);
        next.item == shown.item && next.taxonomy == shown.taxonomy
  {
  }

  lemma RefusedItem(t: Tables, key: ItemKey, version: string, review: Review, now: string)
    requires version in t.versions && ReviewPending(t, key, version, review, now).Done? && review.status != Approved
    ensures var next := ReviewPending(t, key, version, review, now).tables;
      next.item == ShowRefusal(t, version, review, now).item && next.taxonomy == t.taxonomy
  {
  }

  lemma ReviewKeepsConsistent(t: Tables, key: ItemKey, version: string, review: Review, now: string)
    requires Consistent(t, key) && IsPending(t.versions, version)
    requires ReviewPending(t, key, version, review, now).Done?
    ensures Consistent(ReviewPending(t, key, version, review, now).tables, key)
  {
    var row := t.versions[version];
    assert RowConsistent(key, version, row);
    ReviewShape(t, key, version, review, now);
    RowUpdate(t.versions, key, version, row.(review := review, published := review.status == Approved));
    if review.status == Approved {
      ActivatedMirrors(t, key, version, row, Activation(review, row.submittedAt, now, now));
    } else {
      RefusalMirrors(t, key, version, review, now);
    }
  }

  lemma LegacyKeepsConsistent(t: Tables, key: ItemKey, review: Review, now: string)
    requires Consistent(t, key) && forall v :: !IsPending(t.versions, v)
    requires ReviewLegacy(t, review, now).Done?
    ensures Consistent(ReviewLegacy(t, review, now).tables, key)
  {
    var latest := t.item.value.latest;
    var row := t.versions[latest];
    assert RowConsistent(key, latest, row);
    RowUpdate(t.versions, key, latest, row.(review := review, published := review.status == Approved));
  }

  lemma WithdrawKeepsRows(t: Tables, key: ItemKey, now: string)
    requires Consistent(t, key) && t.item.Some?
    ensures var next := Withdraw(t, t.item.value.latest, now);
      RowsConsistent(next.versions, key) && OnePending(next.versions)
  {
    var latest := t.item.value.latest;
    var row := t.versions[latest];
    assert RowConsistent(key, latest, row);
    assert row.review.status == Pending ==> IsPending(t.versions, latest);
    RowUpdate(t.versions, key, latest, row.(published := false));
  }

  /** The replacement, if any, is a visible row other than the withdrawn one. */
  lemma ReplacementIsVisible(t: Tables, rows: seq<string>)
    requires Lists(rows, PublishedVersions(t)) && Latest(rows) != ""
    ensures Latest(rows) in t.versions && Visible(t.versions[Latest(rows)])
  {
    LatestIsMaximum(rows);
  }

  lemma UnpublishKeepsConsistent(t: Tables, key: ItemKey, version: string, rows: seq<string>, now: string)
    requires Consistent(t, key) && RowsScanned(t, version, rows, now)
    requires Unpublish(t, key, version, rows, now).Done?
    ensures Consistent(Unpublish(t, key, version, rows, now).tables, key)
  {
    var latest := t.item.value.latest;
    assert RowConsistent(key, latest, t.versions[latest]);
    assert Canonical(version) == latest;
    var withdrawn := Withdraw(t, latest, now);
    WithdrawKeepsRows(t, key, now);
    var replacement := Latest(rows);
    if replacement != "" {
      ReplacementIsVisible(withdrawn, rows);
      var row := withdrawn.versions[replacement];
      assert row == t.versions[replacement];
      ActivatedMirrors(t, key, replacement, row, RestoreActivation(row, now));
    }
  }

  lemma RekeyKeepsConsistent(t: Tables, key: ItemKey, oldId: string, newId: string)
    requires Consistent(t, key)
    ensures Consistent(Rekey(t, oldId, newId), key)
  {
    var next := Rekey(t, oldId, newId);
    forall v | v in next.versions ensures RowConsistent(key, v, next.versions[v]) {
      assert RowConsistent(key, v, t.versions[v]);
    }
    forall v, w | IsPending(next.versions, v) && IsPending(next.versions, w) ensures v == w {
      assert IsPending(t.versions, v) && IsPending(t.versions, w);
    }
  }

  lemma StepKeepsConsistent(t: Tables, key: ItemKey, op: Op)
    requires Consistent(t, key) && Legit(t, key, op)
    ensures Consistent(After(t, key, op), key)
  {
    if Apply(t, key, op).Done? {
      match op
      case Submit(req, artifact, now) => PublishKeepsConsistent(t, key, req, artifact, now);
      case Judge(status, note, reviewer, now) =>
        var review := Review(NormalizeStatus(status, None).value, TrimSpace(note), now, ReviewerOf(reviewer));
        NothingPending(t, key);
        PendingIsUnique(t, key, "");
        if PendingCandidate(t).Some? {
          PendingIsUnique(t, key, PendingCandidate(t).value);
          ReviewKeepsConsistent(t, key, PendingCandidate(t).value, review, now);
        } else {
          LegacyKeepsConsistent(t, key, review, now);
        }
      case Retire(version, rows, now) => UnpublishKeepsConsistent(t, key, version, rows, now);
      case CountOneView =>
      case RenameUser(oldId, newId) => RekeyKeepsConsistent(t, key, oldId, newId);
    }
  }

  /** Every state of every run from an empty store is consistent. */
  lemma {:induction false} RunsAreConsistent(key: ItemKey, ops: seq<Op>, states: seq<Tables>)
    requires Run(key, ops, states)
    ensures forall i :: 0 <= i < |states| ==> Consistent(states[i], key)
  {
    if ops != [] {
      RunPrefix(key, ops, states);
      var init := states[..|states| - 1];
      RunsAreConsistent(key, ops[..|ops| - 1], init);
      assert init[|ops| - 1] == states[|ops| - 1];
      StepKeepsConsistent(states[|ops| - 1], key, ops[|ops| - 1]);
      forall i | 0 <= i < |states| ensures Consistent(states[i], key) {
        assert i < |init| ==> init[i] == states[i];
      }
    }
  }
}

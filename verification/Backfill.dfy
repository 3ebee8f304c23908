/** Rebuilding a release snapshot from the item tables, for rows that predate
    snapshots: publishRequestFromStoredItem against applyVersionSnapshotTx. */
module Backfill {
  import opened Text
  import opened SemVer
  import opened Market
  import opened Release
  import opened Consistency
  import opened Effects

  // ------------------------------------------------------------ loaded rows

  /** The included skills are read in some order, each once. */
  ghost predicate LoadsIncluded(rows: map<string, IncludedRow>, items: seq<IncludedSkill>) {
    && (forall i, j :: 0 <= i < j < |items| ==> items[i].id != items[j].id)
    && (forall i :: 0 <= i < |items| ==>
          items[i].id in rows && rows[items[i].id] == IncludedRow(items[i].optional, items[i].sortOrder))
    && (forall id :: id in rows ==> exists i :: 0 <= i < |items| && items[i].id == id)
  }

  predicate IsPackage(taxonomy: Taxonomy) { taxonomy.profile.Some? && taxonomy.profile.value.kind == "package" }

  /** Included skills are loaded for packages only. */
  ghost predicate Loads(taxonomy: Taxonomy, tags: seq<string>, items: seq<IncludedSkill>) {
    && (forall tag :: tag in tags <==> tag in taxonomy.tags)
    && (if IsPackage(taxonomy) then LoadsIncluded(taxonomy.included, items) else items == [])
  }

  function LoadedSkill(taxonomy: Taxonomy, items: seq<IncludedSkill>): SkillSpec {
    match taxonomy.profile
    case None => SkillSpec("single", "other", "", "", "", false, items)
    case Some(row) => SkillSpec(row.kind, row.category, row.scenario, row.level, row.packageMode, row.featured, items)
  }

  /** publishRequestFromStoredItem, given the platform it picks. */
  function StoredRequest(key: ItemKey, item: ItemRow, taxonomy: Taxonomy, tags: seq<string>,
                         items: seq<IncludedSkill>, platform: Option<PlatformSpec>): Request
  {
    Request(key.itemType, key.id, item.payload.name, item.latest, item.payload.description, item.payload.readme,
            tags, item.payload.minDesktop, item.payload.sandboxKind, item.payload.websiteKind,
            if platform.Some? then platform.value.key else "",
            StorageMetadata(item.payload.metadata), item.payload.dependencies, item.payload.protocol, platform,
            if key.itemType == Skill then Some(LoadedSkill(taxonomy, items)) else None,
            item.payload.adpYaml, StatusText(item.review.status), item.creator, "")
  }

  // ------------------------------------------------- what the tables may hold

  predicate CleanTags(tags: set<string>) { forall tag :: tag in tags ==> tag != "" && TrimSpace(tag) == tag }

  predicate NoZeroOrder(rows: map<string, IncludedRow>) { forall id :: id in rows ==> rows[id].sortOrder != 0 }

  /** The rows a submission can write: a profile for every skill and for nothing else,
      included skills for packages only, each with an order. */
  predicate Writable(itemType: ItemType, taxonomy: Taxonomy) {
    && CleanTags(taxonomy.tags)
    && (itemType == Skill <==> taxonomy.profile.Some?)
    && (if itemType == Skill && IsPackage(taxonomy) then NoZeroOrder(taxonomy.included) else taxonomy.included == map[])
  }

  /** No metadata names the creator, and the manifest has no blanks around it. */
  predicate NormalPayload(payload: Payload) {
    (forall key :: key in payload.metadata ==> !NamesCreator(key)) && Trimmed(payload.adpYaml)
  }

  lemma NormalIsKept(payload: Payload)
    ensures NormalPayload(payload)
      <==> StorageMetadata(payload.metadata) == payload.metadata && TrimSpace(payload.adpYaml) == payload.adpYaml
  {
    MetadataKept(payload.metadata);
    if Trimmed(payload.adpYaml) {
      TrimmedIsFixed(payload.adpYaml);
    }
    if StorageMetadata(payload.metadata) == payload.metadata {
      assert forall key :: key in payload.metadata ==> key in StorageMetadata(payload.metadata);
    }
    if NormalPayload(payload) {
      assert StorageMetadata(payload.metadata) == payload.metadata;
    }
  }

  lemma {:induction false} IncludedNeverZero(items: seq<IncludedSkill>)
    ensures forall id :: id in IncludedRows(items) ==> IncludedRows(items)[id].sortOrder != 0
  {
    if items != [] {
      IncludedNeverZero(items[..|items| - 1]);
    }
  }

  lemma TagsAreClean(tags: seq<string>)
    ensures CleanTags(TagsOf(tags))
  {
    forall tag | tag in TagsOf(tags) ensures tag != "" && TrimSpace(tag) == tag {
      var raw :| raw in tags && TrimSpace(raw) == tag;
      TrimmedIsFixed(tag);
    }
  }

  lemma SkillIsWritable(req: Request)
    requires req.itemType == Skill
    ensures Writable(Skill, TaxonomyOf(req))
  {
    TagsAreClean(req.tags);
    var spec := if req.skill.Some? then req.skill.value else DEFAULT_SKILL;
    IncludedNeverZero(spec.included);
  }

  /** A submission writes such rows. */
  lemma WrittenIsWritable(req: Request)
    ensures Writable(req.itemType, TaxonomyOf(req))
  {
    if req.itemType == Skill {
      SkillIsWritable(req);
    } else {
      TagsAreClean(req.tags);
    }
  }

  lemma WrittenIsNormal(req: Request)
    ensures NormalPayload(PayloadOf(req))
  {
    TrimmedIsFixed(TrimSpace(req.adpYaml));
    MetadataKept(req.metadata);
  }

  // -------------------------------------------------------------- round trip

  /** Writing distinct rows stores each under its identifier, an order of zero
      replaced by the position. */
  lemma {:induction false} IncludedRowsAt(items: seq<IncludedSkill>)
    requires forall i, j :: 0 <= i < j < |items| ==> items[i].id != items[j].id
    ensures forall i :: 0 <= i < |items| ==>
      && items[i].id in IncludedRows(items)
      && IncludedRows(items)[items[i].id]
        == IncludedRow(items[i].optional, if items[i].sortOrder == 0 then i + 1 else items[i].sortOrder)
    ensures forall id :: id in IncludedRows(items) ==> exists i :: 0 <= i < |items| && items[i].id == id
  {
    if items != [] {
      var init := items[..|items| - 1];
      IncludedRowsAt(init);
      forall id | id in IncludedRows(items) ensures exists i :: 0 <= i < |items| && items[i].id == id {
        if id != items[|items| - 1].id {
          assert id in IncludedRows(init);
          var i :| 0 <= i < |init| && init[i].id == id;
          assert items[i].id == id;
        }
      }
    }
  }

  lemma IncludedRoundTrip(rows: map<string, IncludedRow>, items: seq<IncludedSkill>)
    requires LoadsIncluded(rows, items)
    ensures IncludedRows(items) == rows <==> NoZeroOrder(rows)
  {
    IncludedRowsAt(items);
    IncludedNeverZero(items);
    if NoZeroOrder(rows) {
      forall id ensures id in rows <==> id in IncludedRows(items) {}
      forall id | id in rows ensures IncludedRows(items)[id] == rows[id] {
        var i :| 0 <= i < |items| && items[i].id == id;
      }
    }
  }

  lemma TagsRoundTrip(tags: set<string>, loaded: seq<string>)
    requires forall tag :: tag in loaded <==> tag in tags
    ensures TagsOf(loaded) == tags <==> CleanTags(tags)
  {
    TagsAreClean(loaded);
    if CleanTags(tags) {
      forall tag ensures tag in TagsOf(loaded) <==> tag in tags {
        if tag in tags {
          assert tag in loaded && TrimSpace(tag) == tag;
        }
      }
    }
  }

  /** Reading an item back as a request and restoring it gives the same public payload
      exactly when it was normalised, and the same taxonomy exactly when a submission
      could have written it. */
  lemma StoredRequestRoundTrip(key: ItemKey, item: ItemRow, taxonomy: Taxonomy, tags: seq<string>,
                               items: seq<IncludedSkill>, platform: Option<PlatformSpec>)
    requires Loads(taxonomy, tags, items)
    ensures var req := StoredRequest(key, item, taxonomy, tags, items, platform);
      && KeyOf(req) == key && req.version == item.latest
      && req.platform == platform && req.platformKey == (if platform.Some? then platform.value.key else "")
      && AsksFor(req.reviewStatus, item.review.status) && req.creatorId == item.creator && req.checks == ""
      && (PayloadOf(req) == item.payload <==> NormalPayload(item.payload))
      && (TaxonomyOf(req) == taxonomy <==> Writable(key.itemType, taxonomy))
  {
    PayloadRoundTrip(key, item, taxonomy, tags, items, platform);
    StatusIsAsked(item.review.status);
    if key.itemType == Skill {
      SkillRoundTrip(key, item, taxonomy, tags, items, platform);
    } else {
      TagsRoundTrip(taxonomy.tags, tags);
    }
  }

  lemma PayloadRoundTrip(key: ItemKey, item: ItemRow, taxonomy: Taxonomy, tags: seq<string>,
                         items: seq<IncludedSkill>, platform: Option<PlatformSpec>)
    ensures PayloadOf(StoredRequest(key, item, taxonomy, tags, items, platform)) == item.payload
      <==> NormalPayload(item.payload)
  {
    NormalIsKept(item.payload);
    StorageTwice(item.payload.metadata);
  }

  lemma StorageTwice(metadata: map<string, string>)
    ensures StorageMetadata(StorageMetadata(metadata)) == StorageMetadata(metadata)
  {
  }

  lemma StatusIsAsked(status: Status)
    ensures AsksFor(StatusText(status), status)
  {
    PlatformTextIsLower(StatusText(status));
    TrimmedIsFixed(StatusText(status));
  }

  lemma SkillRoundTrip(key: ItemKey, item: ItemRow, taxonomy: Taxonomy, tags: seq<string>,
                       items: seq<IncludedSkill>, platform: Option<PlatformSpec>)
    requires Loads(taxonomy, tags, items) && key.itemType == Skill
    ensures TaxonomyOf(StoredRequest(key, item, taxonomy, tags, items, platform)) == taxonomy
      <==> Writable(Skill, taxonomy)
  {
    TagsRoundTrip(taxonomy.tags, tags);
    if IsPackage(taxonomy) {
      IncludedRoundTrip(taxonomy.included, items);
    }
  }

  /** A skill without a profile row, as servers before profiles left them, is restored
      with the row the loader fills in. */
  lemma MissingProfileIsWritten(key: ItemKey, item: ItemRow, taxonomy: Taxonomy, tags: seq<string>,
                                items: seq<IncludedSkill>, platform: Option<PlatformSpec>)
    requires Loads(taxonomy, tags, items) && key.itemType == Skill && taxonomy.profile.None? && CleanTags(taxonomy.tags)
    ensures TaxonomyOf(StoredRequest(key, item, taxonomy, tags, items, platform))
      == Taxonomy(taxonomy.tags, Some(ProfileRow("single", "other", "", "", "", false)), map[])
  {
    TagsRoundTrip(taxonomy.tags, tags);
  }

  /** On a consistent store the round trip is exact, whatever order the rows come in. */
  lemma ConsistentRoundTrip(t: Tables, key: ItemKey, tags: seq<string>, items: seq<IncludedSkill>,
                            platform: Option<PlatformSpec>)
    requires Consistent(t, key) && t.item.Some? && Loads(t.taxonomy, tags, items)
    ensures var req := StoredRequest(key, t.item.value, t.taxonomy, tags, items, platform);
      PayloadOf(req) == t.item.value.payload && ReplaceTaxonomy(t.taxonomy, req) == t.taxonomy
  {
    var snapshot := t.versions[t.item.value.latest].snapshot.value;
    assert RowConsistent(key, t.item.value.latest, t.versions[t.item.value.latest]);
    WrittenIsWritable(snapshot);
    WrittenIsNormal(snapshot);
    StoredRequestRoundTrip(key, t.item.value, t.taxonomy, tags, items, platform);
    ItemTaxonomy(t, key, StoredRequest(key, t.item.value, t.taxonomy, tags, items, platform));
  }

  // ------------------------------------------------------------ the migration

  /** The snapshot the backfill writes for an item whose latest row has none. */
  function BackfilledSnapshot(key: ItemKey, t: Tables, tags: seq<string>, items: seq<IncludedSkill>,
                              platform: Option<PlatformSpec>): Request
    requires t.item.Some?
  {
    SnapshotOf(StoredRequest(key, t.item.value, t.taxonomy, tags, items, platform))
  }

  predicate LacksSnapshot(t: Tables) {
    t.item.Some? && t.item.value.latest in t.versions && t.versions[t.item.value.latest].snapshot.None?
  }

  function BackfilledTables(key: ItemKey, t: Tables, tags: seq<string>, items: seq<IncludedSkill>,
                            platform: Option<PlatformSpec>): Tables
  {
    if !LacksSnapshot(t) then t
    else
      var latest := t.item.value.latest;
      var snapshot := BackfilledSnapshot(key, t, tags, items, platform);
      t.(versions := t.versions[latest := t.versions[latest].(snapshot := Some(snapshot))])
  }

  /** Every item is loaded and written in some way. */
  ghost predicate Backfilled(db: map<ItemKey, Tables>, after: map<ItemKey, Tables>) {
    after.Keys == db.Keys && forall key :: key in db ==> BackfilledItem(key, db[key], after[key])
  }

  ghost predicate BackfilledItem(key: ItemKey, t: Tables, after: Tables) {
    exists tags, items, platform ::
      Loads(t.taxonomy, tags, items) && after == BackfilledTables(key, t, tags, items, platform)
  }

  /** What the closing query of the backfill counts. */
  predicate Incomplete(t: Tables) {
    t.item.Some? && (t.item.value.latest !in t.versions || t.versions[t.item.value.latest].snapshot.None?)
  }

  lemma BackfillCompletesItem(key: ItemKey, t: Tables, after: Tables)
    requires BackfilledItem(key, t, after)
    ensures Incomplete(after) <==> t.item.Some? && t.item.value.latest !in t.versions
    ensures !LacksSnapshot(t) ==> after == t
    ensures !LacksSnapshot(after)
  {
    var tags, items, platform :| Loads(t.taxonomy, tags, items)
      && after == BackfilledTables(key, t, tags, items, platform);
  }

  /** The backfill reports an incomplete release exactly for items that name a version
      they have no row of, and running it again changes nothing. */
  lemma BackfillCompletes(db: map<ItemKey, Tables>, after: map<ItemKey, Tables>, again: map<ItemKey, Tables>)
    requires Backfilled(db, after) && Backfilled(after, again)
    ensures forall key :: key in db ==>
      key in after && (Incomplete(after[key]) <==> db[key].item.Some? && db[key].item.value.latest !in db[key].versions)
    ensures again == after
  {
    forall key | key in db
      ensures key in after
        && (Incomplete(after[key]) <==> db[key].item.Some? && db[key].item.value.latest !in db[key].versions)
      ensures key in again && again[key] == after[key]
    {
      assert key in after.Keys && key in again.Keys;
      BackfillCompletesItem(key, db[key], after[key]);
      BackfillCompletesItem(key, after[key], again[key]);
    }
    assert again.Keys == after.Keys;
  }

  /** The version columns the item row repeats. */
  function ContentShown(payload: Payload): Content {
    Content(payload.description, payload.readme, payload.metadata, payload.dependencies, payload.protocol,
            payload.adpYaml)
  }

  /** The item and its latest row agree on what both record of the release. */
  predicate RowsAgree(item: ItemRow, row: VersionRow) {
    item.creator == row.creator && item.review == row.review && item.published == row.published
    && item.submittedAt == row.submittedAt
  }

  /** A legacy item becomes one its latest row materialises exactly when its rows could
      have been written by a submission and the row agrees with the item; it becomes restorable when it has a name; the
      row agrees with its snapshot exactly when it agreed with the item. */
  lemma BackfillMaterialises(key: ItemKey, t: Tables, tags: seq<string>, items: seq<IncludedSkill>,
                             platform: Option<PlatformSpec>)
    requires LacksSnapshot(t) && Loads(t.taxonomy, tags, items)
    ensures var next, latest := BackfilledTables(key, t, tags, items, platform), t.item.value.latest;
      && (Materialised(next.item, next.taxonomy, next.versions)
          <==> Writable(key.itemType, t.taxonomy) && NormalPayload(t.item.value.payload)
               && RowsAgree(t.item.value, t.versions[latest]))
      && (Canonical(latest) == latest && TrimSpace(t.item.value.payload.name) != "" ==>
            latest in next.versions && DecodeSnapshot(key, latest, next.versions[latest]).Some?)
      && (NormalPayload(t.item.value.payload) ==>
            (next.versions[latest].content == ContentOf(next.versions[latest].snapshot.value)
             <==> t.versions[latest].content == ContentShown(t.item.value.payload)))
  {
    SnapshotRoundTrip(key, t, tags, items, platform);
    var row := t.versions[t.item.value.latest];
    if Canonical(t.item.value.latest) == t.item.value.latest && TrimSpace(t.item.value.payload.name) != "" {
      BackfilledDecodes(key, t, row, tags, items, platform);
    }
  }

  lemma SnapshotRoundTrip(key: ItemKey, t: Tables, tags: seq<string>, items: seq<IncludedSkill>,
                          platform: Option<PlatformSpec>)
    requires t.item.Some? && Loads(t.taxonomy, tags, items)
    ensures var snapshot := BackfilledSnapshot(key, t, tags, items, platform);
      && (PayloadOf(snapshot) == t.item.value.payload <==> NormalPayload(t.item.value.payload))
      && (NormalPayload(t.item.value.payload) ==> ContentOf(snapshot) == ContentShown(t.item.value.payload))
      && (TaxonomyOf(snapshot) == t.taxonomy <==> Writable(key.itemType, t.taxonomy))
  {
    var req := StoredRequest(key, t.item.value, t.taxonomy, tags, items, platform);
    StoredRequestRoundTrip(key, t.item.value, t.taxonomy, tags, items, platform);
    assert TaxonomyOf(SnapshotOf(req)) == TaxonomyOf(req) && PayloadOf(SnapshotOf(req)) == PayloadOf(req);
  }

  lemma BackfilledDecodes(key: ItemKey, t: Tables, row: VersionRow, tags: seq<string>, items: seq<IncludedSkill>,
                          platform: Option<PlatformSpec>)
    requires t.item.Some? && Canonical(t.item.value.latest) == t.item.value.latest
      && TrimSpace(t.item.value.payload.name) != ""
    ensures DecodeSnapshot(key, t.item.value.latest,
                           row.(snapshot := Some(BackfilledSnapshot(key, t, tags, items, platform)))).Some?
  {
  }
}

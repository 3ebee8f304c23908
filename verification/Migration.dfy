/** canonicalizeStoredVersions: version keys written with a leading v or V lose it,
    in three tables and in the references to them. */
module Migration {
  import opened Text
  import opened SemVer

  datatype RowKey = RowKey(itemType: string, itemId: string, version: string, platform: string)

  datatype Row = Row(rowid: nat, columns: string)

  /** A table with a unique version key; the versions table has no platform column. */
  type Table = map<RowKey, Row>

  /** substr(version, 1, 1) IN ('v', 'V') AND substr(version, 2, 1) BETWEEN '0' AND '9' */
  predicate Prefixed(version: string) {
    |version| >= 2 && (version[0] == 'v' || version[0] == 'V') && IsDigit(version[1])
  }

  function Bare(version: string): string { if Prefixed(version) then version[1..] else version }

  function BareKey(k: RowKey): RowKey { k.(version := Bare(k.version)) }

  lemma BareIsFixed(version: string)
    ensures !Prefixed(Bare(version)) && Bare(Bare(version)) == Bare(version)
    ensures Trimmed(version) ==> Bare(version) == Canonical(version)
  {
    if Trimmed(version) {
      TrimmedIsFixed(version);
    }
  }

  ghost predicate UniqueRowids(table: Table) {
    forall k, l :: k in table && l in table && table[k].rowid == table[l].rowid ==> k == l
  }

  /** Two prefixed rows that would end up under one key. */
  predicate Rivals(k: RowKey, l: RowKey) {
    Prefixed(k.version) && Prefixed(l.version) && BareKey(k) == BareKey(l)
  }

  /** The rows the DELETE statement removes: the bare row is there already, or the
      row is not the oldest of its rivals. */
  predicate Shadowed(table: Table, k: RowKey)
    requires k in table
  {
    && Prefixed(k.version)
    && (BareKey(k) in table || exists l :: l in table && Rivals(k, l) && table[l].rowid < table[k].rowid)
  }

  function DeleteShadowed(table: Table): Table {
    map k | k in table && !Shadowed(table, k) :: table[k]
  }

  /** Each canonical key once, holding the bare row where there was one and
      otherwise the oldest prefixed row. */
  ghost predicate Migrated(before: Table, after: Table) {
    && (forall k :: k in before ==> BareKey(k) in after)
    && (forall c :: c in after ==> !Prefixed(c.version))
    && (forall c :: c in after ==> exists k :: Survives(before, k, c) && after[c] == before[k])
  }

  ghost predicate Survives(before: Table, k: RowKey, c: RowKey) {
    && k in before && BareKey(k) == c
    && (c in before ==> k == c)
    && forall l :: l in before && Rivals(k, l) ==> before[k].rowid <= before[l].rowid
  }

  /** The keys that will not collide: distinct rows have distinct bare keys. */
  ghost predicate CollisionFree(table: Table) {
    forall k, l :: k in table && l in table && BareKey(k) == BareKey(l) ==> k == l
  }

  lemma {:induction false} OldestRival(table: Table, k: RowKey) returns (oldest: RowKey)
    requires k in table && Prefixed(k.version)
    ensures oldest in table && Rivals(k, oldest)
    ensures forall l :: l in table && Rivals(k, l) ==> table[oldest].rowid <= table[l].rowid
    decreases table[k].rowid
  {
    if l :| l in table && Rivals(k, l) && table[l].rowid < table[k].rowid {
      oldest := OldestRival(table, l);
    } else {
      oldest := k;
    }
  }

  lemma DeletionIsCollisionFree(table: Table)
    requires UniqueRowids(table)
    ensures CollisionFree(DeleteShadowed(table))
  {
    var left := DeleteShadowed(table);
    forall k, l | k in left && l in left && BareKey(k) == BareKey(l) ensures k == l {
      BareIsFixed(k.version);
      BareIsFixed(l.version);
      assert Prefixed(k.version) && Prefixed(l.version) ==> Rivals(k, l) && Rivals(l, k);
      assert !Prefixed(k.version) ==> BareKey(k) == k;
      assert !Prefixed(l.version) ==> BareKey(l) == l;
    }
  }

  /** What is left after the deletion still covers every canonical key, by its survivor. */
  lemma DeletionCovers(table: Table, k: RowKey)
    requires UniqueRowids(table) && k in table
    ensures exists l :: l in DeleteShadowed(table) && BareKey(l) == BareKey(k)
  {
    BareIsFixed(k.version);
    if BareKey(k) in table {
      assert BareKey(k) in DeleteShadowed(table);
      assert BareKey(BareKey(k)) == BareKey(k);
    } else {
      var l := OldestRival(table, k);
      assert l in DeleteShadowed(table) && BareKey(l) == BareKey(k);
    }
  }

  lemma SurvivorKept(table: Table, k: RowKey)
    requires UniqueRowids(table) && k in DeleteShadowed(table)
    ensures Survives(table, k, BareKey(k))
  {
    BareIsFixed(k.version);
  }

  /** Where a row stands while some prefixed rows are still to be updated. */
  function Place(todo: set<RowKey>, k: RowKey): RowKey { if k in todo then k else BareKey(k) }

  ghost predicate Occupied(table: Table, todo: set<RowKey>, c: RowKey) {
    exists k :: k in table && Place(todo, k) == c
  }

  ghost predicate RowsPlaced(table: Table, todo: set<RowKey>, result: Table) {
    forall k :: k in table ==> Place(todo, k) in result && result[Place(todo, k)] == table[k]
  }

  ghost predicate Placed(table: Table, todo: set<RowKey>, result: Table) {
    && RowsPlaced(table, todo, result)
    && (forall c {:trigger Occupied(table, todo, c)} :: c in result ==> Occupied(table, todo, c))
  }

  lemma PlaceInjective(table: Table, todo: set<RowKey>, k: RowKey, l: RowKey)
    requires CollisionFree(table) && k in table && l in table && Place(todo, k) == Place(todo, l)
    ensures k == l
  {
    BareIsFixed(k.version);
    BareIsFixed(l.version);
    assert BareKey(Place(todo, k)) == BareKey(k) && BareKey(Place(todo, l)) == BareKey(l);
  }

  /** The key a row is renamed to is free. */
  lemma TargetIsFree(table: Table, todo: set<RowKey>, result: Table, k: RowKey)
    requires CollisionFree(table) && Placed(table, todo, result) && k in table && k in todo && Prefixed(k.version)
    ensures BareKey(k) !in result
  {
    BareIsFixed(k.version);
    forall l | l in table ensures Place(todo, l) != BareKey(k) {
      BareIsFixed(l.version);
      assert BareKey(Place(todo, l)) == BareKey(l) && BareKey(BareKey(k)) == BareKey(k);
    }
    assert !Occupied(table, todo, BareKey(k));
  }

  /** A row finds its place in the renamed table. */
  lemma RenamedRow(table: Table, todo: set<RowKey>, result: Table, k: RowKey, l: RowKey)
    requires CollisionFree(table) && Placed(table, todo, result) && k in table && k in todo && Prefixed(k.version)
      && l in table
    ensures var rest, next := todo - {k}, (result - {k})[BareKey(k) := table[k]];
      Place(rest, l) in next && next[Place(rest, l)] == table[l]
  {
    TargetIsFree(table, todo, result, k);
    if l != k {
      assert Place(todo - {k}, l) == Place(todo, l);
      if Place(todo, l) == k {
        PlaceInjective(table, todo, l, k);
      }
    }
  }

  /** Nothing but rows of the table stands in the renamed one. */
  lemma RenamedOccupied(table: Table, todo: set<RowKey>, result: Table, k: RowKey, c: RowKey)
    requires Placed(table, todo, result) && k in table && k in todo
    requires c == BareKey(k) || (c in result && c != k)
    ensures Occupied(table, todo - {k}, c)
  {
    if c == BareKey(k) {
      assert Place(todo - {k}, k) == c;
    } else {
      assert Occupied(table, todo, c);
      var l :| l in table && Place(todo, l) == c;
      assert l != k && Place(todo - {k}, l) == c;
    }
  }

  lemma RenamedRows(table: Table, todo: set<RowKey>, result: Table, k: RowKey)
    requires CollisionFree(table) && Placed(table, todo, result) && k in table && k in todo && Prefixed(k.version)
    ensures RowsPlaced(table, todo - {k}, (result - {k})[BareKey(k) := table[k]])
  {
    var rest, next := todo - {k}, (result - {k})[BareKey(k) := table[k]];
    forall l | l in table ensures Place(rest, l) in next && next[Place(rest, l)] == table[l] {
      RenamedRow(table, todo, result, k, l);
    }
  }

  lemma RenameOne(table: Table, todo: set<RowKey>, result: Table, k: RowKey)
    requires CollisionFree(table) && Placed(table, todo, result) && k in table && k in todo && Prefixed(k.version)
    ensures Placed(table, todo - {k}, (result - {k})[BareKey(k) := table[k]])
  {
    RenamedRows(table, todo, result, k);
    forall c | c in (result - {k})[BareKey(k) := table[k]] ensures Occupied(table, todo - {k}, c) {
      RenamedOccupied(table, todo, result, k, c);
    }
  }

  lemma InPlace(table: Table, todo: set<RowKey>)
    requires todo == set k | k in table && Prefixed(k.version)
    ensures Placed(table, todo, table)
  {
    forall k | k in table ensures Place(todo, k) == k {}
    forall c | c in table ensures Occupied(table, todo, c) { assert Place(todo, c) == c; }
  }

  /** One row of the UPDATE statement; its new key must not be taken. */
  method RenameRow(table: Table, ghost todo: set<RowKey>, result: Table, k: RowKey) returns (next: Table)
    requires CollisionFree(table) && Placed(table, todo, result) && k in table && k in todo && Prefixed(k.version)
    ensures Placed(table, todo - {k}, next)
  {
    TargetIsFree(table, todo, result, k);
    assert BareKey(k) !in result;
    RenameOne(table, todo, result, k);
    next := (result - {k})[BareKey(k) := table[k]];
  }

  /** The UPDATE statement, row by row in any order: no step meets an occupied key. */
  method StripPrefixes(table: Table) returns (result: Table)
    requires CollisionFree(table)
    ensures Placed(table, {}, result)
  {
    result := table;
    var todo := set k | k in table && Prefixed(k.version);
    InPlace(table, todo);
    while todo != {}
      invariant forall k :: k in todo ==> k in table && Prefixed(k.version)
      invariant Placed(table, todo, result)
      decreases todo
    {
      var k :| k in todo;
      result := RenameRow(table, todo, result, k);
      todo := todo - {k};
    }
  }

  /** The DELETE and the UPDATE of one table. */
  method CanonicalizeTable(table: Table) returns (result: Table)
    requires UniqueRowids(table)
    ensures Migrated(table, result)
  {
    var left := DeleteShadowed(table);
    DeletionIsCollisionFree(table);
    result := StripPrefixes(left);
    StrippedIsMigrated(table, result);
  }

  lemma StrippedIsMigrated(table: Table, result: Table)
    requires UniqueRowids(table) && Placed(DeleteShadowed(table), {}, result)
    ensures Migrated(table, result)
  {
    var left := DeleteShadowed(table);
    forall k | k in table ensures BareKey(k) in result {
      DeletionCovers(table, k);
      var l :| l in left && BareKey(l) == BareKey(k);
      assert Place({}, l) == BareKey(k);
    }
    forall c | c in result ensures !Prefixed(c.version) && exists k :: Survives(table, k, c) && result[c] == table[k] {
      assert Occupied(left, {}, c);
      var k :| k in left && Place({}, k) == c;
      BareIsFixed(k.version);
      SurvivorKept(table, k);
      assert Survives(table, k, c) && result[c] == table[k];
    }
  }

  // -------------------------------------------------- what the result means

  /** The set of canonical keys is preserved, nothing else appears. */
  lemma KeysPreserved(before: Table, after: Table)
    requires Migrated(before, after)
    ensures after.Keys == set k | k in before :: BareKey(k)
  {
    forall c | c in after ensures exists k :: k in before && BareKey(k) == c {
      var k :| Survives(before, k, c) && after[c] == before[k];
    }
  }

  /** Rows without prefix stay as they are. */
  lemma BareRowsKept(before: Table, after: Table, k: RowKey)
    requires Migrated(before, after) && k in before && !Prefixed(k.version)
    ensures k in after && after[k] == before[k]
  {
    assert BareKey(k) == k;
    var l :| Survives(before, l, k) && after[k] == before[l];
  }

  lemma OutcomeAt(before: Table, one: Table, two: Table, c: RowKey)
    requires UniqueRowids(before) && Migrated(before, one) && Migrated(before, two) && c in one && c in two
    ensures one[c] == two[c]
  {
    var k :| Survives(before, k, c) && one[c] == before[k];
    var l :| Survives(before, l, c) && two[c] == before[l];
    SurvivorUnique(before, k, l, c);
  }

  /** The outcome is determined by the table, not by the order of the updates. */
  lemma OutcomeUnique(before: Table, one: Table, two: Table)
    requires UniqueRowids(before) && Migrated(before, one) && Migrated(before, two)
    ensures one == two
  {
    assert one.Keys == two.Keys by {
      KeysPreserved(before, one);
      KeysPreserved(before, two);
    }
    forall c | c in one ensures c in two && one[c] == two[c] {
      assert c in one.Keys;
      OutcomeAt(before, one, two, c);
    }
  }

  lemma SurvivorUnique(before: Table, k: RowKey, l: RowKey, c: RowKey)
    requires UniqueRowids(before) && Survives(before, k, c) && Survives(before, l, c)
    ensures k == l
  {
    if c !in before {
      assert Prefixed(k.version) && Prefixed(l.version);
      assert Rivals(k, l) && Rivals(l, k);
    }
  }

  lemma SurvivorOfBare(before: Table, k: RowKey, c: RowKey)
    requires Survives(before, k, c) && !Prefixed(k.version)
    ensures k == c
  {
  }

  lemma NothingNew(table: Table, again: Table, c: RowKey)
    requires forall k :: k in table ==> !Prefixed(k.version)
    requires Migrated(table, again) && c in again
    ensures c in table
  {
    var k :| Survives(table, k, c) && again[c] == table[k];
    SurvivorOfBare(table, k, c);
  }

  /** Running the migration again changes nothing. */
  lemma Idempotent(before: Table, after: Table, again: Table)
    requires Migrated(before, after) && Migrated(after, again)
    ensures again == after
  {
    assert again.Keys == after.Keys by {
      forall c | c in again ensures c in after { NothingNew(after, again, c); }
      forall c | c in after ensures c in again { BareRowsKept(after, again, c); }
    }
    forall c | c in after ensures again[c] == after[c] { BareRowsKept(after, again, c); }
  }

  /** Rows of one table name rows of the versions table. */
  ghost predicate References(rows: Table, versions: Table) {
    forall k :: k in rows ==> k.(platform := "") in versions
  }

  /** A file or platform row that had its version row has it afterwards. */
  lemma ReferencesPreserved(rows: Table, versions: Table, newRows: Table, newVersions: Table)
    requires References(rows, versions) && Migrated(rows, newRows) && Migrated(versions, newVersions)
    ensures References(newRows, newVersions)
  {
    forall c | c in newRows ensures c.(platform := "") in newVersions {
      var k :| Survives(rows, k, c) && newRows[c] == rows[k];
      assert BareKey(k.(platform := "")) == c.(platform := "");
    }
  }

  lemma RowidsOf(before: Table, after: Table, c: RowKey, d: RowKey)
    requires UniqueRowids(before) && Migrated(before, after)
    requires c in after && d in after && after[c].rowid == after[d].rowid
    ensures c == d
  {
    var k :| Survives(before, k, c) && after[c] == before[k];
    var l :| Survives(before, l, d) && after[d] == before[l];
    assert k == l;
  }

  /** Row identifiers stay unique, so the migration can run again. */
  lemma RowidsKept(before: Table, after: Table)
    requires UniqueRowids(before) && Migrated(before, after)
    ensures UniqueRowids(after)
  {
    forall c, d | c in after && d in after && after[c].rowid == after[d].rowid ensures c == d {
      RowidsOf(before, after, c, d);
    }
  }

  datatype ItemRef = ItemRef(itemType: string, itemId: string)

  ghost predicate LatestExist(latest: map<ItemRef, string>, versions: Table) {
    forall item :: item in latest ==> RowKey(item.itemType, item.itemId, latest[item], "") in versions
  }

  /** What the migration rewrites: three keyed tables, the download log, and the
      latest version of each item. */
  datatype Stored = Stored(
    versions: Table, artifacts: Table, platforms: Table, downloads: seq<string>, latest: map<ItemRef, string>)

  ghost predicate UniqueRows(s: Stored) {
    UniqueRowids(s.versions) && UniqueRowids(s.artifacts) && UniqueRowids(s.platforms)
  }

  ghost predicate Canonicalized(before: Stored, after: Stored) {
    && Migrated(before.versions, after.versions)
    && Migrated(before.artifacts, after.artifacts)
    && Migrated(before.platforms, after.platforms)
    && |after.downloads| == |before.downloads|
    && (forall i :: 0 <= i < |before.downloads| ==> after.downloads[i] == Bare(before.downloads[i]))
    && after.latest.Keys == before.latest.Keys
    && (forall item :: item in before.latest ==> after.latest[item] == Bare(before.latest[item]))
  }

  lemma BareAgain(before: Stored, after: Stored, again: Stored)
    requires Canonicalized(before, after) && Canonicalized(after, again)
    ensures again.downloads == after.downloads && again.latest == after.latest
  {
    forall i | 0 <= i < |after.downloads| ensures again.downloads[i] == after.downloads[i] {
      BareIsFixed(before.downloads[i]);
    }
    forall item | item in after.latest ensures item in before.latest && again.latest[item] == after.latest[item] {
      assert item in after.latest.Keys;
      BareIsFixed(before.latest[item]);
    }
    assert again.latest == after.latest by {
      assert again.latest.Keys == after.latest.Keys;
    }
  }

  /** Running the whole migration again changes nothing. */
  lemma RunningAgainChangesNothing(before: Stored, after: Stored, again: Stored)
    requires Canonicalized(before, after) && Canonicalized(after, again)
    ensures again == after
  {
    Idempotent(before.versions, after.versions, again.versions);
    Idempotent(before.artifacts, after.artifacts, again.artifacts);
    Idempotent(before.platforms, after.platforms, again.platforms);
    BareAgain(before, after, again);
  }

  /** The tables the migration rewrites. */
  class Database {
    var versions: Table
    var artifacts: Table
    var platforms: Table
    var downloads: seq<string>
    var latest: map<ItemRef, string>

    function Rows(): Stored
      reads this
    {
      Stored(versions, artifacts, platforms, downloads, latest)
    }

    /** The statements on the three keyed tables. */
    method CanonicalizeKeys()
      requires UniqueRows(Rows())
      modifies this`versions, this`artifacts, this`platforms
      ensures Migrated(old(versions), versions) && Migrated(old(artifacts), artifacts)
        && Migrated(old(platforms), platforms)
      ensures UniqueRows(Rows())
    {
      ghost var before := Rows();
      versions := CanonicalizeTable(versions);
      artifacts := CanonicalizeTable(artifacts);
      platforms := CanonicalizeTable(platforms);
      RowidsKept(before.versions, versions);
      RowidsKept(before.artifacts, artifacts);
      RowidsKept(before.platforms, platforms);
    }

    /** canonicalizeStoredVersions: eight statements in one transaction, after which
        it can run again. */
    method CanonicalizeStoredVersions()
      requires UniqueRows(Rows())
      modifies this
      ensures Canonicalized(old(Rows()), Rows()) && UniqueRows(Rows())
      ensures References(old(artifacts), old(versions)) ==> References(artifacts, versions)
      ensures References(old(platforms), old(versions)) ==> References(platforms, versions)
      ensures LatestExist(old(latest), old(versions)) ==> LatestExist(latest, versions)
    {
      ghost var before := Rows();
      CanonicalizeKeys();
      CanonicalizeNames();
      CanonicalizedReferences(before, Rows());
    }

    /** The two statements on columns that are no keys. */
    method CanonicalizeNames()
      modifies this`downloads, this`latest
      ensures |downloads| == |old(downloads)|
      ensures forall i :: 0 <= i < |downloads| ==> downloads[i] == Bare(old(downloads)[i])
      ensures latest.Keys == old(latest).Keys && forall item :: item in latest ==>
        latest[item] == Bare(old(latest)[item])
    {
      var recorded := downloads;
      downloads := seq(|recorded|, i requires 0 <= i < |recorded| => Bare(recorded[i]));
      latest := map item | item in latest :: Bare(latest[item]);
    }
  }

  lemma CanonicalizedReferences(before: Stored, after: Stored)
    requires Canonicalized(before, after)
    ensures References(before.artifacts, before.versions) ==> References(after.artifacts, after.versions)
    ensures References(before.platforms, before.versions) ==> References(after.platforms, after.versions)
    ensures LatestExist(before.latest, before.versions) ==> LatestExist(after.latest, after.versions)
  {
    AllReferencesPreserved(before.artifacts, before.versions, after.artifacts, after.versions);
    AllReferencesPreserved(before.platforms, before.versions, after.platforms, after.versions);
    if LatestExist(before.latest, before.versions) {
      LatestPreserved(before.latest, before.versions, after.latest, after.versions);
    }
  }

  lemma AllReferencesPreserved(rows: Table, versions: Table, newRows: Table, newVersions: Table)
    requires Migrated(rows, newRows) && Migrated(versions, newVersions)
    ensures References(rows, versions) ==> References(newRows, newVersions)
  {
    if References(rows, versions) {
      ReferencesPreserved(rows, versions, newRows, newVersions);
    }
  }

  /** The latest version named by an item keeps its row. */
  lemma LatestPreserved(latest: map<ItemRef, string>, versions: Table, newLatest: map<ItemRef, string>,
                        newVersions: Table)
    requires LatestExist(latest, versions) && Migrated(versions, newVersions)
    requires newLatest.Keys == latest.Keys && forall item :: item in latest ==> newLatest[item] == Bare(latest[item])
    ensures LatestExist(newLatest, newVersions)
  {
    forall item | item in newLatest ensures RowKey(item.itemType, item.itemId, newLatest[item], "") in newVersions {
      assert item in newLatest.Keys;
      var k := RowKey(item.itemType, item.itemId, latest[item], "");
      assert BareKey(k) == RowKey(item.itemType, item.itemId, newLatest[item], "");
    }
  }
}

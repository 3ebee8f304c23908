/** Releases as a stack. In runs where every release is submitted pending and every
    review finds one pending, or else leaves the item as live as it was, the published
    versions of an item form a LIFO stack in strictly increasing precedence: approving
    pushes, unpublishing pops. */
module ReleaseStack {
  import opened Text
  import opened SemVer
  import opened Market
  import opened Release
  import opened Consistency
  import opened PublicView

  // --------------------------------------------------------- the refinement

  ghost predicate OnShelf(versions: map<string, VersionRow>, stack: seq<string>) {
    forall v :: v in stack <==> v in versions && versions[v].published
  }

  ghost predicate Ascending(stack: seq<string>) {
    forall i, j :: 0 <= i < j < |stack| ==> Newer(stack[j], stack[i])
  }

  /** The item row shows the top of the stack, and is offline when there is none. */
  predicate ShowsTop(item: Option<ItemRow>, stack: seq<string>) {
    if stack == [] then item.None? || !item.value.published
    else item.Some? && item.value.published && item.value.latest == stack[|stack| - 1]
  }

  ghost predicate PendingAbove(versions: map<string, VersionRow>, stack: seq<string>) {
    stack != [] ==> forall v :: IsPending(versions, v) ==> Newer(v, stack[|stack| - 1])
  }

  /** Platform rows repeat the flag of their version, and every version has one. */
  ghost predicate FlagsAgree(platforms: map<(string, string), PlatformRow>, versions: map<string, VersionRow>) {
    && (forall k :: k in platforms ==> k.0 in versions && platforms[k].published == versions[k.0].published)
    && (forall v :: v in versions ==> HasPlatform(platforms, v))
  }

  ghost predicate HasPlatform(platforms: map<(string, string), PlatformRow>, version: string) {
    exists p :: (version, p) in platforms
  }

  predicate FilesOwned(artifacts: map<(string, string), ArtifactRow>, versions: map<string, VersionRow>) {
    forall k :: k in artifacts ==> k.0 in versions
  }

  /** Everything on the stack has a snapshot with a name, so it can be restored. */
  predicate StackNamed(versions: map<string, VersionRow>, stack: seq<string>) {
    forall v :: v in stack ==> v in versions && Named(versions[v])
  }

  ghost predicate ShelfStacked(versions: map<string, VersionRow>, stack: seq<string>) {
    && OnShelf(versions, stack)
    && Ascending(stack)
    && PendingAbove(versions, stack)
    && StackNamed(versions, stack)
    && "" !in versions
  }

  ghost predicate Stacked(t: Tables, stack: seq<string>) {
    && ShelfStacked(t.versions, stack)
    && ShowsTop(t.item, stack)
    && FlagsAgree(t.platforms, t.versions)
    && FilesOwned(t.artifacts, t.versions)
  }

  /** The abstract machine: a stack and at most one submission waiting on top. */
  datatype Lifo = Lifo(stack: seq<string>, pending: Option<string>)

  const EMPTY := Lifo([], None)

  function Top(a: Lifo): string
    requires a.stack != []
  {
    a.stack[|a.stack| - 1]
  }

  /** The version the item row names. */
  function Shown(t: Tables): string { if t.item.Some? then t.item.value.latest else "" }

  /** A review with nothing pending may put the version the item shows back in line. */
  function LifoNext(a: Lifo, op: Op, done: bool, shown: string): Lifo {
    if !done then a
    else match op
      case Submit(req, _, _) => a.(pending := Some(Canonical(req.version)))
      case Judge(status, _, _, _) =>
        (match NormalizeStatus(status, None)
         case Some(Approved) => if a.pending.Some? then Lifo(a.stack + [a.pending.value], None) else a
         case Some(Rejected) => a.(pending := None)
         case Some(Pending) => if a.pending.Some? then a else a.(pending := Some(shown))
         case None => a)
      case Retire(_, _, _) => if a.stack == [] then a else a.(stack := a.stack[..|a.stack| - 1])
      case _ => a
  }

  /** The abstract step is a push above the top, a pop of the top, or no change of the stack. */
  ghost predicate LifoStep(a: Lifo, op: Op, done: bool, shown: string) {
    var b := LifoNext(a, op, done, shown);
    || b.stack == a.stack
    || (a.pending.Some? && b.stack == a.stack + [a.pending.value] && (a.stack != [] ==> Newer(a.pending.value, Top(a))))
    || (a.stack != [] && a.stack == b.stack + [Top(a)] && op.Retire? && Canonical(op.version) == Top(a))
  }

  ghost predicate OnlyPending(versions: map<string, VersionRow>, pending: Option<string>) {
    forall v :: IsPending(versions, v) <==> pending == Some(v)
  }

  ghost predicate Simulates(t: Tables, key: ItemKey, a: Lifo) {
    Consistent(t, key) && Stacked(t, a.stack) && OnlyPending(t.versions, a.pending)
  }

  /** The calls of a reviewed run: what the publish handler lets through, reviews that
      find a pending release, and reviews that do not change whether the item is live. */
  ghost predicate Reviewed(t: Tables, op: Op) {
    match op
    case Submit(req, _, _) => SubmittedStatus(req) == Pending && Canonical(req.version) != ""
    case Judge(status, _, _, _) =>
      PendingCandidate(t).Some? || ((NormalizeStatus(status, None) == Some(Approved)) == Live(t))
    case _ => true
  }

  // ---------------------------------------------------------- step by step

  lemma NewerThanAll(stack: seq<string>, version: string, i: nat)
    requires Ascending(stack) && i < |stack| && Newer(version, stack[|stack| - 1])
    ensures Newer(version, stack[i])
  {
    if i < |stack| - 1 {
      NewerIsStrictOrder(version, stack[|stack| - 1], stack[i]);
    }
  }

  lemma AscendingPush(stack: seq<string>, version: string)
    requires Ascending(stack)
    requires stack != [] ==> Newer(version, stack[|stack| - 1])
    ensures Ascending(stack + [version])
  {
    var next := stack + [version];
    forall i, j | 0 <= i < j < |next| ensures Newer(next[j], next[i]) {
      if j == |stack| {
        NewerThanAll(stack, version, i);
      }
    }
  }

  /** Elements of an ascending stack are pairwise different. */
  lemma TopIsOutside(stack: seq<string>)
    requires Ascending(stack) && stack != []
    ensures stack[|stack| - 1] !in stack[..|stack| - 1]
    ensures forall v :: v in stack <==> v == stack[|stack| - 1] || v in stack[..|stack| - 1]
  {
    var top := stack[|stack| - 1];
    NewerIsStrictOrder(top, top, top);
    assert stack == stack[..|stack| - 1] + [top];
  }

  /** The scan of an ascending stack finds its top, whatever the row order. */
  lemma LatestIsTop(rows: seq<string>, stack: seq<string>)
    requires Ascending(stack) && stack != [] && Parse(stack[|stack| - 1]).Some?
    requires forall v :: v in rows <==> v in stack
    ensures Latest(rows) == stack[|stack| - 1]
  {
    var top, found := stack[|stack| - 1], Latest(rows);
    LatestIsMaximum(rows);
    assert top in stack;
    EmptyDoesNotParse();
    var i :| 0 <= i < |stack| && stack[i] == found;
    assert i < |stack| - 1 ==> Newer(stack[|stack| - 1], stack[i]);
  }

  /** Both pending queries answer with the abstract machine's pending version. */
  lemma PendingFacts(t: Tables, key: ItemKey, pending: Option<string>)
    requires Consistent(t, key) && OnlyPending(t.versions, pending)
    ensures PendingVersion(t) == pending && PendingCandidate(t) == pending
  {
    NothingPending(t, key);
    PendingIsUnique(t, key, if pending.Some? then pending.value else "");
  }

  // One version row changes: what that does to the shelf.

  /** An unpublished row stays unpublished. */
  lemma ShelfKept(versions: map<string, VersionRow>, stack: seq<string>, version: string, row: VersionRow)
    requires ShelfStacked(versions, stack) && version != ""
    requires !row.published && (version in versions ==> !versions[version].published)
    requires row.review.status == Pending && stack != [] ==> Newer(version, stack[|stack| - 1])
    ensures ShelfStacked(versions[version := row], stack)
  {
    var next := versions[version := row];
    forall v | IsPending(next, v) && v != version ensures IsPending(versions, v) {}
    assert version !in stack;
  }

  /** The one pending version is published above the top. */
  lemma ShelfPushed(versions: map<string, VersionRow>, stack: seq<string>, version: string, row: VersionRow)
    requires ShelfStacked(versions, stack) && OnlyPending(versions, Some(version))
    requires row.published && row.review.status == Approved && Named(row)
    ensures ShelfStacked(versions[version := row], stack + [version])
    ensures stack != [] ==> Newer(version, stack[|stack| - 1])
  {
    var next := versions[version := row];
    assert IsPending(versions, version);
    AscendingPush(stack, version);
    forall v ensures !IsPending(next, v) {
      assert v != version ==> !IsPending(versions, v);
    }
  }

  /** The top leaves the shelf. */
  lemma ShelfPopped(versions: map<string, VersionRow>, stack: seq<string>)
    requires ShelfStacked(versions, stack) && stack != []
    ensures var top := stack[|stack| - 1];
      && top in versions
      && (versions[top].review.status != Pending ==>
            ShelfStacked(versions[top := versions[top].(published := false)], stack[..|stack| - 1]))
  {
    var top, rest := stack[|stack| - 1], stack[..|stack| - 1];
    TopIsOutside(stack);
    assert top in stack;
    if versions[top].review.status != Pending {
      var row := versions[top].(published := false);
      PoppedPending(versions, stack, row);
      PoppedShelf(versions, stack, row);
      assert forall v :: v in rest ==> v in stack;
    }
  }

  lemma PoppedPending(versions: map<string, VersionRow>, stack: seq<string>, row: VersionRow)
    requires PendingAbove(versions, stack) && Ascending(stack) && stack != [] && row.review.status != Pending
    ensures PendingAbove(versions[stack[|stack| - 1] := row], stack[..|stack| - 1])
  {
    var top, rest := stack[|stack| - 1], stack[..|stack| - 1];
    if rest != [] {
      var next := versions[top := row];
      forall v | IsPending(next, v) ensures Newer(v, rest[|rest| - 1]) {
        assert IsPending(versions, v);
        NewerIsStrictOrder(v, top, rest[|rest| - 1]);
      }
    }
  }

  lemma PoppedShelf(versions: map<string, VersionRow>, stack: seq<string>, row: VersionRow)
    requires OnShelf(versions, stack) && Ascending(stack) && stack != [] && !row.published
    ensures OnShelf(versions[stack[|stack| - 1] := row], stack[..|stack| - 1])
  {
    TopIsOutside(stack);
  }

  lemma OnlyPendingUpdate(versions: map<string, VersionRow>, pending: Option<string>, version: string, row: VersionRow)
    requires OnlyPending(versions, pending)
    requires pending == None || pending == Some(version)
    ensures OnlyPending(versions[version := row], if row.review.status == Pending then Some(version) else None)
  {
    var next := versions[version := row];
    forall v | v != version ensures !IsPending(next, v) {
      assert !IsPending(versions, v);
    }
  }

  // The same for platform flags and files.

  lemma PlatformsStay(platforms: map<(string, string), PlatformRow>, next: map<(string, string), PlatformRow>,
                      version: string)
    requires HasPlatform(platforms, version) && platforms.Keys <= next.Keys
    ensures HasPlatform(next, version)
  {
    var p :| (version, p) in platforms;
    assert (version, p) in next.Keys;
  }

  lemma FlagsMarked(platforms: map<(string, string), PlatformRow>, versions: map<string, VersionRow>,
                    marked: map<(string, string), PlatformRow>, version: string, row: VersionRow)
    requires FlagsAgree(platforms, versions) && version in versions
    requires marked.Keys == platforms.Keys
    requires forall k :: k in platforms ==>
      marked[k].published == if k.0 == version then row.published else platforms[k].published
    ensures FlagsAgree(marked, versions[version := row])
  {
    var next := versions[version := row];
    forall v | v in next ensures HasPlatform(marked, v) {
      PlatformsStay(platforms, marked, v);
    }
    forall k | k in marked ensures k.0 in next && marked[k].published == next[k.0].published {
      assert k in platforms;
    }
  }

  lemma FlagsAdded(platforms: map<(string, string), PlatformRow>, versions: map<string, VersionRow>,
                   version: string, platform: string, row: VersionRow, spec: PlatformRow)
    requires FlagsAgree(platforms, versions)
    requires row.published == spec.published && (version in versions ==> versions[version].published == row.published)
    ensures FlagsAgree(platforms[(version, platform) := spec], versions[version := row])
  {
    var added, next := platforms[(version, platform) := spec], versions[version := row];
    assert (version, platform) in added;
    forall v | v in next ensures HasPlatform(added, v) {
      if v in versions {
        PlatformsStay(platforms, added, v);
      }
    }
  }

  lemma SubmitSimulates(t: Tables, key: ItemKey, a: Lifo, req: Request, artifact: Option<Artifact>, now: string)
    requires Simulates(t, key, a) && KeyOf(req) == key && Canonical(req.version) == req.version != ""
    requires SubmittedStatus(req) == Pending
    requires PublishGuard(t, req.version, PlatformOf(req).key, CreatorOf(req)).None?
    ensures Simulates(Submitted(t, req, artifact, now), key, a.(pending := Some(req.version)))
  {
    GuardMeans(t, key, req.version, PlatformOf(req).key, CreatorOf(req));
    SubmittedKeepsConsistent(t, key, req, artifact, now);
    SubmittedStacked(t, key, a, req, artifact, now);
    OnlyPendingUpdate(t.versions, a.pending, req.version, SubmittedVersion(t, req, now));
  }

  lemma SubmittedStacked(t: Tables, key: ItemKey, a: Lifo, req: Request, artifact: Option<Artifact>, now: string)
    requires Stacked(t, a.stack) && req.version != "" && SubmittedStatus(req) == Pending
    requires req.version in t.versions ==> !t.versions[req.version].published
    requires IsPublished(t) ==> Newer(req.version, t.item.value.latest)
    ensures Stacked(Submitted(t, req, artifact, now), a.stack)
  {
    var row := SubmittedVersion(t, req, now);
    ShelfKept(t.versions, a.stack, req.version, row);
    FlagsAdded(t.platforms, t.versions, req.version, PlatformOf(req).key, row, SubmittedPlatform(t, req, now));
  }

  lemma ReviewMarks(t: Tables, key: ItemKey, version: string, review: Review, now: string)
    requires FlagsAgree(t.platforms, t.versions) && FilesOwned(t.artifacts, t.versions) && version in t.versions
    requires ReviewPending(t, key, version, review, now).Done?
    ensures var next := ReviewPending(t, key, version, review, now).tables;
      FlagsAgree(next.platforms, next.versions) && FilesOwned(next.artifacts, next.versions)
  {
    var next := ReviewPending(t, key, version, review, now).tables;
    ReviewShape(t, key, version, review, now);
    FlagsMarked(t.platforms, t.versions, next.platforms, version, next.versions[version]);
  }

  lemma ApproveSimulates(t: Tables, key: ItemKey, a: Lifo, review: Review, now: string)
    requires Simulates(t, key, a) && a.pending.Some? && review.status == Approved
    requires ReviewPending(t, key, a.pending.value, review, now).Done?
    ensures Simulates(ReviewPending(t, key, a.pending.value, review, now).tables, key,
                      Lifo(a.stack + [a.pending.value], None))
    ensures a.stack != [] ==> Newer(a.pending.value, Top(a))
  {
    var version := a.pending.value;
    assert IsPending(t.versions, version);
    var row := t.versions[version];
    var reviewed := row.(review := review, published := true);
    assert RowConsistent(key, version, row);
    DecodesUnlessBlank(key, version, row);
    ReviewShape(t, key, version, review, now);
    ReviewKeepsConsistent(t, key, version, review, now);
    ReviewMarks(t, key, version, review, now);
    ShelfPushed(t.versions, a.stack, version, reviewed);
    OnlyPendingUpdate(t.versions, a.pending, version, reviewed);
    ActivatedMirrors(t, key, version, row, Activation(review, row.submittedAt, now, now));
  }

  lemma RefuseSimulates(t: Tables, key: ItemKey, a: Lifo, review: Review, now: string)
    requires Simulates(t, key, a) && a.pending.Some? && review.status != Approved
    requires ReviewPending(t, key, a.pending.value, review, now).Done?
    ensures Simulates(ReviewPending(t, key, a.pending.value, review, now).tables, key,
                      if review.status == Pending then a else a.(pending := None))
  {
    var version := a.pending.value;
    assert IsPending(t.versions, version);
    var reviewed := t.versions[version].(review := review, published := false);
    assert RowConsistent(key, version, t.versions[version]);
    ReviewShape(t, key, version, review, now);
    ReviewKeepsConsistent(t, key, version, review, now);
    ReviewMarks(t, key, version, review, now);
    ShelfKept(t.versions, a.stack, version, reviewed);
    OnlyPendingUpdate(t.versions, a.pending, version, reviewed);
  }

  /** What a rename keeps of every row. */
  ghost predicate SameStanding(versions: map<string, VersionRow>, next: map<string, VersionRow>) {
    && next.Keys == versions.Keys
    && forall v :: v in versions ==>
         && next[v].published == versions[v].published
         && next[v].review.status == versions[v].review.status
         && next[v].snapshot == versions[v].snapshot
  }

  lemma StandingDecides(versions: map<string, VersionRow>, next: map<string, VersionRow>, a: Lifo,
                        platforms: map<(string, string), PlatformRow>)
    requires SameStanding(versions, next)
    requires ShelfStacked(versions, a.stack) && OnlyPending(versions, a.pending) && FlagsAgree(platforms, versions)
    ensures ShelfStacked(next, a.stack) && OnlyPending(next, a.pending) && FlagsAgree(platforms, next)
  {
    forall v ensures v in next <==> v in versions { assert v in next.Keys <==> v in versions.Keys; }
    forall v ensures IsPending(next, v) <==> IsPending(versions, v) {}
  }

  lemma RenameSimulates(t: Tables, key: ItemKey, a: Lifo, oldId: string, newId: string)
    requires Simulates(t, key, a)
    ensures Simulates(Rekey(t, oldId, newId), key, a)
  {
    var next := Rekey(t, oldId, newId);
    RekeyKeepsConsistent(t, key, oldId, newId);
    assert SameStanding(t.versions, next.versions);
    StandingDecides(t.versions, next.versions, a, t.platforms);
  }

  // ------------------------------------------------------------- unpublishing

  /** What remains of a stack after one unpublish. */
  function Popped(a: Lifo): Lifo {
    if a.stack == [] then a else a.(stack := a.stack[..|a.stack| - 1])
  }

  lemma WithdrawPops(t: Tables, key: ItemKey, a: Lifo, now: string)
    requires Simulates(t, key, a) && t.item.Some?
    ensures var withdrawn := Withdraw(t, t.item.value.latest, now);
      && ShelfStacked(withdrawn.versions, Popped(a).stack)
      && OnlyPending(withdrawn.versions, a.pending)
      && FlagsAgree(withdrawn.platforms, withdrawn.versions)
      && FilesOwned(withdrawn.artifacts, withdrawn.versions)
  {
    var latest := t.item.value.latest;
    var row := t.versions[latest].(published := false);
    var withdrawn := Withdraw(t, latest, now);
    assert RowConsistent(key, latest, t.versions[latest]);
    if a.stack == [] {
      ShelfKept(t.versions, a.stack, latest, row);
    } else {
      ShelfPopped(t.versions, a.stack);
    }
    assert withdrawn.versions == t.versions[latest := row];
    PendingUntouched(t.versions, latest, row, a.pending);
    FlagsMarked(t.platforms, t.versions, withdrawn.platforms, latest, row);
  }

  lemma PendingUntouched(versions: map<string, VersionRow>, version: string, row: VersionRow, pending: Option<string>)
    requires OnlyPending(versions, pending) && version in versions && row.review == versions[version].review
    ensures OnlyPending(versions[version := row], pending)
  {
    var next := versions[version := row];
    forall v ensures IsPending(next, v) <==> IsPending(versions, v) {}
  }

  /** On the latest version of an existing item, Unpublish is the withdrawal and the fallback. */
  lemma UnpublishLatest(t: Tables, key: ItemKey, text: string, rows: seq<string>, now: string)
    requires Consistent(t, key) && t.item.Some? && Canonical(text) == t.item.value.latest != ""
    ensures Unpublish(t, key, text, rows, now)
      == FallBack(Withdraw(t, t.item.value.latest, now), key, Latest(rows), now)
    ensures RowsScanned(t, text, rows, now) ==> Lists(rows, PublishedVersions(Withdraw(t, t.item.value.latest, now)))
  {
    assert RowConsistent(key, t.item.value.latest, t.versions[t.item.value.latest]);
  }

  /** The rows the query returns are what is left on the shelf; the scan finds its top. */
  lemma ReplacementIsTop(t: Tables, key: ItemKey, stack: seq<string>, rows: seq<string>)
    requires ShelfStacked(t.versions, stack) && RowsConsistent(t.versions, key)
    requires Lists(rows, PublishedVersions(t))
    requires |stack| >= 1 ==> Parse(stack[|stack| - 1]).Some?
    ensures Latest(rows) == if stack == [] then "" else stack[|stack| - 1]
  {
    forall v ensures v in rows <==> v in stack {
      assert v in t.versions ==> RowConsistent(key, v, t.versions[v]);
    }
    if stack == [] {
      LatestIsMaximum(rows);
    } else {
      LatestIsTop(rows, stack);
    }
  }

  /** Unpublishing the latest version falls back on the next lower one, if any. */
  lemma FallsToPopped(t: Tables, key: ItemKey, a: Lifo, text: string, rows: seq<string>, now: string)
    requires Simulates(t, key, a) && t.item.Some? && Canonical(text) == t.item.value.latest
    requires RowsScanned(t, text, rows, now)
    ensures var rest := Popped(a).stack;
      Unpublish(t, key, text, rows, now)
      == FallBack(Withdraw(t, t.item.value.latest, now), key, if rest == [] then "" else rest[|rest| - 1], now)
  {
    UnpublishLatest(t, key, text, rows, now);
    WithdrawPops(t, key, a, now);
    WithdrawKeepsRows(t, key, now);
    PoppedTopParses(a);
    ReplacementIsTop(Withdraw(t, t.item.value.latest, now), key, Popped(a).stack, rows);
  }

  /** The outcome shows what is left of the stack, over the rows of the withdrawal. */
  ghost predicate Leaves(outcome: Outcome, withdrawn: Tables, stack: seq<string>) {
    && outcome.Done?
    && ShowsTop(outcome.tables.item, stack)
    && outcome.tables.versions == withdrawn.versions
    && outcome.tables.platforms == withdrawn.platforms
    && outcome.tables.artifacts == withdrawn.artifacts
  }

  lemma WithdrawnFallsBack(t: Tables, key: ItemKey, a: Lifo, now: string)
    requires Simulates(t, key, a) && t.item.Some?
    ensures var withdrawn, rest := Withdraw(t, t.item.value.latest, now), Popped(a).stack;
      Leaves(FallBack(withdrawn, key, if rest == [] then "" else rest[|rest| - 1], now), withdrawn, rest)
  {
    WithdrawnShelf(t, key, a, now);
    FallBackShows(Withdraw(t, t.item.value.latest, now), key, Popped(a).stack, now);
  }

  lemma RetireShape(t: Tables, key: ItemKey, a: Lifo, text: string, rows: seq<string>, now: string)
    requires Simulates(t, key, a) && t.item.Some? && Canonical(text) == t.item.value.latest
    requires RowsScanned(t, text, rows, now)
    ensures Leaves(Unpublish(t, key, text, rows, now), Withdraw(t, t.item.value.latest, now), Popped(a).stack)
  {
    FallsToPopped(t, key, a, text, rows, now);
    WithdrawnFallsBack(t, key, a, now);
  }

  lemma WithdrawnShelf(t: Tables, key: ItemKey, a: Lifo, now: string)
    requires Simulates(t, key, a) && t.item.Some?
    ensures var withdrawn := Withdraw(t, t.item.value.latest, now);
      withdrawn.item.Some? && RowsConsistent(withdrawn.versions, key)
        && ShelfStacked(withdrawn.versions, Popped(a).stack)
  {
    WithdrawPops(t, key, a, now);
    WithdrawKeepsRows(t, key, now);
  }

  /** Unpublishing the latest version of a stacked item always succeeds and pops the stack. */
  lemma RetireSimulates(t: Tables, key: ItemKey, a: Lifo, text: string, rows: seq<string>, now: string)
    requires Simulates(t, key, a) && t.item.Some? && Canonical(text) == t.item.value.latest
    requires RowsScanned(t, text, rows, now)
    ensures Unpublish(t, key, text, rows, now).Done?
    ensures Simulates(Unpublish(t, key, text, rows, now).tables, key, Popped(a))
  {
    RetireShape(t, key, a, text, rows, now);
    UnpublishKeepsConsistent(t, key, text, rows, now);
    WithdrawPops(t, key, a, now);
  }

  lemma PoppedTopParses(a: Lifo)
    requires Ascending(a.stack)
    ensures var rest := Popped(a).stack; rest != [] ==> Parse(rest[|rest| - 1]).Some?
  {
    if |a.stack| >= 2 {
      assert Newer(a.stack[|a.stack| - 1], a.stack[|a.stack| - 2]);
      ComparatorTotal(a.stack[|a.stack| - 1], a.stack[|a.stack| - 2]);
    }
  }

  lemma FallBackShows(t: Tables, key: ItemKey, stack: seq<string>, now: string)
    requires t.item.Some? && RowsConsistent(t.versions, key) && ShelfStacked(t.versions, stack)
    ensures Leaves(FallBack(t, key, if stack == [] then "" else stack[|stack| - 1], now), t, stack)
  {
    if stack != [] {
      var top := stack[|stack| - 1];
      assert top in stack;
      assert RowConsistent(key, top, t.versions[top]);
      DecodesUnlessBlank(key, top, t.versions[top]);
    }
  }

  // ---------------------------------------------------------------- one step

  lemma JudgeSimulates(t: Tables, key: ItemKey, a: Lifo, op: Op)
    requires Simulates(t, key, a) && op.Judge? && Reviewed(t, op) && Apply(t, key, op).Done?
    ensures Simulates(After(t, key, op), key, LifoNext(a, op, true, Shown(t))) && LifoStep(a, op, true, Shown(t))
  {
    PendingFacts(t, key, a.pending);
    var review := Review(NormalizeStatus(op.status, None).value, TrimSpace(op.note), op.now, ReviewerOf(op.reviewer));
    if a.pending.None? {
      LegacyKeeps(t, key, a, review, op.now);
    } else {
      ReviewSimulates(t, key, a, op, review);
    }
  }

  lemma ReviewSimulates(t: Tables, key: ItemKey, a: Lifo, op: Op, review: Review)
    requires Simulates(t, key, a) && op.Judge? && a.pending.Some?
      && NormalizeStatus(op.status, None) == Some(review.status)
    requires ReviewPending(t, key, a.pending.value, review, op.now).Done?
    ensures Simulates(ReviewPending(t, key, a.pending.value, review, op.now).tables, key,
                      LifoNext(a, op, true, Shown(t)))
    ensures LifoStep(a, op, true, Shown(t))
  {
    if review.status == Approved {
      ApproveSimulates(t, key, a, review, op.now);
    } else {
      RefuseSimulates(t, key, a, review, op.now);
    }
  }

  lemma PopIsLifoStep(a: Lifo, op: Op)
    requires op.Retire? && (a.stack != [] ==> Canonical(op.version) == Top(a))
    ensures forall shown :: LifoNext(a, op, true, shown) == Popped(a) && LifoStep(a, op, true, shown)
  {
    if a.stack != [] {
      assert a.stack == a.stack[..|a.stack| - 1] + [Top(a)];
    }
  }

  lemma RetireStep(t: Tables, key: ItemKey, a: Lifo, op: Op)
    requires Simulates(t, key, a) && op.Retire? && Legit(t, key, op) && Apply(t, key, op).Done?
    ensures Simulates(After(t, key, op), key, LifoNext(a, op, true, Shown(t))) && LifoStep(a, op, true, Shown(t))
  {
    assert t.item.Some? && Canonical(op.version) == Canonical(t.item.value.latest);
    LatestIsCanonical(t, key);
    RetireSimulates(t, key, a, op.version, op.rows, op.now);
    assert a.stack != [] ==> t.item.value.latest == Top(a);
    PopIsLifoStep(a, op);
  }

  lemma LatestIsCanonical(t: Tables, key: ItemKey)
    requires Consistent(t, key) && t.item.Some?
    ensures Canonical(t.item.value.latest) == t.item.value.latest
  {
    assert RowConsistent(key, t.item.value.latest, t.versions[t.item.value.latest]);
  }

  /** Every operation of a reviewed run, successful or not, is a step of the abstract machine. */
  lemma StepSimulates(t: Tables, key: ItemKey, a: Lifo, op: Op)
    requires Simulates(t, key, a) && Legit(t, key, op) && Reviewed(t, op)
    ensures Simulates(After(t, key, op), key, LifoNext(a, op, Apply(t, key, op).Done?, Shown(t)))
    ensures LifoStep(a, op, Apply(t, key, op).Done?, Shown(t))
  {
    if Apply(t, key, op).Done? {
      match op
      case Submit(req, artifact, now) =>
        CanonicalIdempotent(req.version);
        SubmitSimulates(t, key, a, req.(version := Canonical(req.version)), artifact, now);
      case Judge(_, _, _, _) => JudgeSimulates(t, key, a, op);
      case Retire(_, _, _) => RetireStep(t, key, a, op);
      case CountOneView =>
      case RenameUser(oldId, newId) => RenameSimulates(t, key, a, oldId, newId);
    }
  }

  // ------------------------------------------------ when a step is accepted

  lemma NewerIsOutside(stack: seq<string>, version: string)
    requires Ascending(stack) && stack != [] && Newer(version, stack[|stack| - 1])
    ensures version !in stack
  {
    var top := stack[|stack| - 1];
    NewerIsStrictOrder(version, top, version);
    forall i | 0 <= i < |stack| ensures stack[i] != version {
      assert stack[i] == top || Newer(top, stack[i]);
    }
  }

  /** Whom the item and its pending version belong to lets the caller in. */
  predicate OwnerAgrees(t: Tables, pending: Option<string>, creator: string) {
    && !(t.item.Some? && Conflict(t.item.value.creator, creator))
    && !(pending.Some? && pending.value in t.versions && Conflict(t.versions[pending.value].creator, creator))
  }

  /** A release may start above the top; a pending one may gain a platform. */
  predicate Fits(a: Lifo, platforms: map<(string, string), PlatformRow>, version: string, platform: string) {
    match a.pending
    case None => a.stack == [] || Newer(version, Top(a))
    case Some(pending) => version == pending && (version, platform) !in platforms
  }

  /** A submission is accepted exactly when its creator agrees and it fits the machine. */
  lemma SubmissionTaken(t: Tables, key: ItemKey, a: Lifo, req: Request, artifact: Option<Artifact>, now: string)
    requires Simulates(t, key, a)
    ensures Publish(t, req, artifact, now).Done?
      <==> OwnerAgrees(t, a.pending, CreatorOf(req))
           && Fits(a, t.platforms, Canonical(req.version), PlatformOf(req).key)
  {
    PendingFacts(t, key, a.pending);
    GuardFits(t, key, a, Canonical(req.version), PlatformOf(req).key, CreatorOf(req));
    var canonical := req.(version := Canonical(req.version));
    assert PlatformOf(canonical) == PlatformOf(req) && CreatorOf(canonical) == CreatorOf(req);
  }

  lemma GuardFits(t: Tables, key: ItemKey, a: Lifo, version: string, platform: string, creator: string)
    requires Simulates(t, key, a) && PendingVersion(t) == a.pending
    ensures PublishGuard(t, version, platform, creator).None?
      <==> OwnerAgrees(t, a.pending, creator) && Fits(a, t.platforms, version, platform)
  {
    if a.pending.Some? {
      var pending := a.pending.value;
      assert IsPending(t.versions, pending);
      assert RowConsistent(key, pending, t.versions[pending]);
    } else if a.stack != [] && Newer(version, Top(a)) {
      NewerIsOutside(a.stack, version);
    }
  }

  /** The pending version can be decided exactly when its request has a name. */
  lemma ReviewTaken(t: Tables, key: ItemKey, a: Lifo, op: Op)
    requires Simulates(t, key, a) && a.pending.Some? && op.Judge? && NormalizeStatus(op.status, None).Some?
    ensures a.pending.value in t.versions
    ensures Apply(t, key, op).Done? <==> Named(t.versions[a.pending.value])
  {
    var pending := a.pending.value;
    PendingFacts(t, key, a.pending);
    assert IsPending(t.versions, pending);
    assert RowConsistent(key, pending, t.versions[pending]);
    DecodesUnlessBlank(key, pending, t.versions[pending]);
  }

  /** Unpublishing succeeds exactly on the version the item shows. */
  lemma RetireTaken(t: Tables, key: ItemKey, a: Lifo, text: string, rows: seq<string>, now: string)
    requires Simulates(t, key, a) && RowsScanned(t, text, rows, now)
    ensures Unpublish(t, key, text, rows, now).Done? <==> t.item.Some? && Canonical(text) == t.item.value.latest
  {
    if t.item.Some? {
      LatestIsCanonical(t, key);
      if Canonical(text) == t.item.value.latest {
        RetireSimulates(t, key, a, text, rows, now);
      }
    }
  }

  // ------------------------------------------------------------- whole runs

  /** The abstract machine driven by the calls of a run and their outcomes. */
  ghost function LifoRun(key: ItemKey, ops: seq<Op>, states: seq<Tables>): Lifo
    requires |states| == |ops| + 1
  {
    if ops == [] then EMPTY
    else
      var n := |ops| - 1;
      LifoNext(LifoRun(key, ops[..n], states[..n + 1]), ops[n], Apply(states[n], key, ops[n]).Done?,
               Shown(states[n]))
  }

  ghost predicate ReviewedRun(key: ItemKey, ops: seq<Op>, states: seq<Tables>) {
    Run(key, ops, states) && forall i :: 0 <= i < |ops| ==> Reviewed(states[i], ops[i])
  }

  lemma EmptyIsStacked(key: ItemKey)
    ensures Simulates(NO_ROWS, key, EMPTY)
  {
  }

  /** Every reviewed run from an empty store is simulated by the LIFO machine. */
  lemma {:induction false} RunsAreStacks(key: ItemKey, ops: seq<Op>, states: seq<Tables>)
    requires ReviewedRun(key, ops, states)
    ensures Simulates(states[|ops|], key, LifoRun(key, ops, states))
  {
    if ops == [] {
      EmptyIsStacked(key);
    } else {
      var n := |ops| - 1;
      RunPrefix(key, ops, states);
      RunsAreStacks(key, ops[..n], states[..n + 1]);
      StepSimulates(states[n], key, LifoRun(key, ops[..n], states[..n + 1]), ops[n]);
    }
  }

  /** The published versions are the stack, and the live version is its top. */
  lemma StackIsPublic(t: Tables, key: ItemKey, a: Lifo)
    requires Simulates(t, key, a)
    ensures Live(t) <==> a.stack != []
    ensures Live(t) ==> t.item.value.latest == Top(a)
    ensures forall v :: v in PublishedVersions(t) <==> v in a.stack
  {
    LiveLatestIsVisible(t, key);
    VisibleIsPublished(t, key);
  }

  lemma VisibleIsPublished(t: Tables, key: ItemKey)
    requires Consistent(t, key)
    ensures forall v :: v in PublishedVersions(t) <==> v in t.versions && t.versions[v].published
  {
    forall v | v in t.versions ensures RowConsistent(key, v, t.versions[v]) {}
  }

  /** What the public may read is what is on the stack. */
  lemma VisibleIffStacked(t: Tables, key: ItemKey, a: Lifo, version: string, platform: string)
    requires Simulates(t, key, a)
    ensures GetArtifact(t, version, platform).Some? <==> (version, platform) in t.artifacts && version in a.stack
    ensures GetPlatform(t, version, platform).Some? <==> (version, platform) in t.platforms && version in a.stack
    ensures Canonical(version) == version ==> (ReadableVersion(t, version) <==> version in a.stack)
  {
    StackIsPublic(t, key, a);
  }

  // ---------------------------------------------------------------- draining

  /** What one unpublish meets: the order of the rows it scans, and its time. */
  datatype Scan = Scan(rows: seq<string>, now: string)

  /** Unpublishing the current version once for each scan leads from t to last. */
  ghost predicate Drains(key: ItemKey, t: Tables, scans: seq<Scan>, last: Tables) {
    if scans == [] then last == t
    else
      var n := |scans| - 1;
      exists before :: Drains(key, t, scans[..n], before) && RetiresTo(key, before, scans[n].rows, scans[n].now, last)
  }

  ghost predicate RetiresTo(key: ItemKey, t: Tables, rows: seq<string>, now: string, next: Tables) {
    && t.item.Some?
    && RowsScanned(t, t.item.value.latest, rows, now)
    && next == After(t, key, Retire(t.item.value.latest, rows, now))
  }

  lemma RetireLatest(t: Tables, key: ItemKey, a: Lifo, rows: seq<string>, now: string, next: Tables)
    requires Simulates(t, key, a) && RetiresTo(key, t, rows, now, next)
    ensures Simulates(next, key, Popped(a))
  {
    LatestIsCanonical(t, key);
    RetireSimulates(t, key, a, t.item.value.latest, rows, now);
  }

  /** The i lowest versions of a stack. */
  function Lowest(a: Lifo, i: nat): Lifo
    requires i <= |a.stack|
  {
    a.(stack := a.stack[..i])
  }

  lemma LowestLaws(a: Lifo)
    ensures Lowest(a, |a.stack|) == a
    ensures forall i :: 0 < i <= |a.stack| ==> Popped(Lowest(a, i)) == Lowest(a, i - 1)
  {
    assert a.stack[..|a.stack|] == a.stack;
    assert forall i :: 0 < i <= |a.stack| ==> a.stack[..i][..i - 1] == a.stack[..i - 1];
  }

  lemma {:induction false} DrainSimulates(key: ItemKey, t: Tables, a: Lifo, scans: seq<Scan>, last: Tables)
    requires Simulates(t, key, a) && Drains(key, t, scans, last) && |scans| <= |a.stack|
    ensures Simulates(last, key, Lowest(a, |a.stack| - |scans|))
  {
    LowestLaws(a);
    if scans != [] {
      var n := |scans| - 1;
      var before :| Drains(key, t, scans[..n], before) && RetiresTo(key, before, scans[n].rows, scans[n].now, last);
      DrainSimulates(key, t, a, scans[..n], before);
      RetireLatest(before, key, Lowest(a, |a.stack| - n), scans[n].rows, scans[n].now, last);
    }
  }

  /** Repeated unpublishing visits the stack from the top down: after n steps the
      lowest |stack| - n versions remain, so the item goes offline after exactly
      as many steps as there were published versions. */
  lemma DrainDescends(key: ItemKey, t: Tables, a: Lifo, scans: seq<Scan>, last: Tables)
    requires Simulates(t, key, a) && Drains(key, t, scans, last) && |scans| <= |a.stack|
    ensures Live(last) <==> |scans| < |a.stack|
    ensures Live(last) ==> last.item.value.latest == a.stack[|a.stack| - 1 - |scans|]
    ensures forall v :: v in PublishedVersions(last) <==> v in a.stack[..|a.stack| - |scans|]
  {
    DrainSimulates(key, t, a, scans, last);
    LowestIsPublic(last, key, a, |a.stack| - |scans|);
  }

  lemma LowestIsPublic(t: Tables, key: ItemKey, a: Lifo, i: nat)
    requires i <= |a.stack| && Simulates(t, key, Lowest(a, i))
    ensures Live(t) <==> i > 0
    ensures Live(t) ==> t.item.value.latest == a.stack[i - 1]
    ensures forall v :: v in PublishedVersions(t) <==> v in a.stack[..i]
  {
    StackIsPublic(t, key, Lowest(a, i));
  }

  // ---------------------------------------------------------------- rollback

  /** The view without the two timestamps a restore rewrites. */
  function Timeless(view: View): View {
    match view.live
    case None => view
    case Some((item, taxonomy)) => view.(live := Some((item.(publishedAt := "", updatedAt := ""), taxonomy)))
  }

  /** The rows an approval leaves alone. */
  ghost predicate ApprovalFrame(t: Tables, next: Tables, version: string, now: string) {
    && (forall v :: v != version ==> (v in next.versions <==> v in t.versions))
    && (forall v :: v != version && v in t.versions ==> next.versions[v] == t.versions[v])
    && next.artifacts == t.artifacts
    && next.platforms == MarkPlatforms(t, version, true, now).platforms
    && next.item.Some? && next.item.value.views == if t.item.Some? then t.item.value.views else 0
  }

  lemma ApprovalFrames(t: Tables, key: ItemKey, version: string, review: Review, now: string)
    requires version in t.versions && review.status == Approved && ReviewPending(t, key, version, review, now).Done?
    ensures ApprovalFrame(t, ReviewPending(t, key, version, review, now).tables, version, now)
  {
    ReviewShape(t, key, version, review, now);
  }

  lemma ApprovedShape(t: Tables, key: ItemKey, a: Lifo, op: Op)
    requires Simulates(t, key, a) && op.Judge? && a.pending.Some?
    requires NormalizeStatus(op.status, None) == Some(Approved) && Apply(t, key, op).Done?
    ensures Simulates(After(t, key, op), key, Lifo(a.stack + [a.pending.value], None))
    ensures ApprovalFrame(t, After(t, key, op), a.pending.value, op.now)
  {
    PendingFacts(t, key, a.pending);
    assert IsPending(t.versions, a.pending.value);
    var review := Review(Approved, TrimSpace(op.note), op.now, ReviewerOf(op.reviewer));
    ApprovalFrames(t, key, a.pending.value, review, op.now);
    ApproveSimulates(t, key, a, review, op.now);
  }

  lemma BelowTop(stack: seq<string>)
    requires Ascending(stack) && |stack| >= 2
    ensures stack[|stack| - 2] != stack[|stack| - 1]
    ensures stack[|stack| - 2] in stack && stack[|stack| - 1] in stack
  {
    assert Newer(stack[|stack| - 1], stack[|stack| - 2]);
    NewerIsStrictOrder(stack[|stack| - 1], stack[|stack| - 2], "");
  }

  lemma StackTop(t: Tables, key: ItemKey, a: Lifo)
    requires Simulates(t, key, a) && a.stack != []
    ensures t.item.Some? && t.item.value.latest == Top(a) && Top(a) in t.versions && Canonical(Top(a)) == Top(a)
  {
    LatestIsCanonical(t, key);
  }

  lemma StackBelow(t: Tables, key: ItemKey, a: Lifo, below: string)
    requires Simulates(t, key, a) && |a.stack| >= 2 && below == a.stack[|a.stack| - 2]
    ensures below in t.versions && below != Top(a) && below != ""
    ensures DecodeSnapshot(key, below, t.versions[below]).Some?
  {
    BelowTop(a.stack);
    NamedDecodes(t, key, below);
  }

  lemma RestoredShape(t: Tables, key: ItemKey, a: Lifo, below: string, top: string, rows: seq<string>, now: string)
    requires Simulates(t, key, a) && |a.stack| >= 2 && top == Top(a) && below == a.stack[|a.stack| - 2]
    requires RowsScanned(t, top, rows, now)
    ensures below in t.versions && top in t.versions && below != top && t.item.Some?
    ensures DecodeSnapshot(key, below, t.versions[below]).Some?
    ensures Unpublish(t, key, top, rows, now)
            == Done(Activate(Withdraw(t, top, now), DecodeSnapshot(key, below, t.versions[below]).value,
                             t.versions[below].creator, RestoreActivation(t.versions[below], now)))
  {
    StackTop(t, key, a);
    StackBelow(t, key, a, below);
    FallsToBelow(t, key, a, below, rows, now);
    FallBackRestores(t, Withdraw(t, top, now), key, below, now);
  }

  lemma FallsToBelow(t: Tables, key: ItemKey, a: Lifo, below: string, rows: seq<string>, now: string)
    requires Simulates(t, key, a) && |a.stack| >= 2 && below == a.stack[|a.stack| - 2]
    requires Top(a) in t.versions && RowsScanned(t, Top(a), rows, now)
    ensures Unpublish(t, key, Top(a), rows, now) == FallBack(Withdraw(t, Top(a), now), key, below, now)
  {
    StackTop(t, key, a);
    PoppedTop(a);
    FallsToPopped(t, key, a, Top(a), rows, now);
  }

  lemma PoppedTop(a: Lifo)
    requires |a.stack| >= 2
    ensures Popped(a).stack != [] && Popped(a).stack[|Popped(a).stack| - 1] == a.stack[|a.stack| - 2]
  {
  }

  lemma FallBackRestores(t: Tables, withdrawn: Tables, key: ItemKey, version: string, now: string)
    requires withdrawn.item.Some? && version != "" && version in t.versions && version in withdrawn.versions
    requires withdrawn.versions[version] == t.versions[version]
    requires DecodeSnapshot(key, version, t.versions[version]).Some?
    ensures FallBack(withdrawn, key, version, now)
            == Done(Activate(withdrawn, DecodeSnapshot(key, version, t.versions[version]).value,
                             t.versions[version].creator, RestoreActivation(t.versions[version], now)))
  {
  }

  lemma NamedDecodes(t: Tables, key: ItemKey, version: string)
    requires RowsConsistent(t.versions, key) && version in t.versions && Named(t.versions[version])
    ensures DecodeSnapshot(key, version, t.versions[version]).Some?
  {
    DecodesUnlessBlank(key, version, t.versions[version]);
  }

  /** Approving the pending version of a live item and unpublishing it again is
      invisible up to the stored timestamps: version, payload, tags, profile,
      note, reviewer, files and platforms are those of before. */
  lemma RollbackInverse(t: Tables, key: ItemKey, a: Lifo, approve: Op, rows: seq<string>, now: string)
    requires Simulates(t, key, a) && a.stack != [] && a.pending.Some?
    requires approve.Judge? && NormalizeStatus(approve.status, None) == Some(Approved) && Apply(t, key, approve).Done?
    requires RowsScanned(After(t, key, approve), a.pending.value, rows, now)
    ensures var outcome := Unpublish(After(t, key, approve), key, a.pending.value, rows, now);
      outcome.Done? && Timeless(ViewOf(outcome.tables)) == Timeless(ViewOf(t))
  {
    var version, top := a.pending.value, Top(a);
    var approved := After(t, key, approve);
    var pushed := Lifo(a.stack + [version], None);
    assert IsPending(t.versions, version);
    ApprovedShape(t, key, a, approve);
    assert Top(pushed) == version && pushed.stack[|pushed.stack| - 2] == top;
    RestoredShape(approved, key, pushed, top, version, rows, now);
    var back := Unpublish(approved, key, version, rows, now).tables;
    assert top in a.stack;
    assert t.versions[top] == approved.versions[top];
    BackToShelf(t, approved, back, key, version, approve.now, now);
    BackToItem(t, approved, back, key, now);
    LiveLatestIsVisible(t, key);
  }

  /** Only rows of the version pushed and popped have changed. */
  lemma BackToShelf(t: Tables, approved: Tables, back: Tables, key: ItemKey, version: string, then1: string,
                    then2: string)
    requires Consistent(t, key) && IsPending(t.versions, version) && version in approved.versions
    requires forall v :: v != version ==> (v in approved.versions <==> v in t.versions)
    requires forall v :: v != version && v in t.versions ==> approved.versions[v] == t.versions[v]
    requires approved.artifacts == t.artifacts
    requires approved.platforms == MarkPlatforms(t, version, true, then1).platforms
    requires var withdrawn := Withdraw(approved, version, then2);
      back.versions == withdrawn.versions && back.platforms == withdrawn.platforms
        && back.artifacts == withdrawn.artifacts
    ensures ShelfOf(back) == ShelfOf(t)
  {
    assert RowConsistent(key, version, t.versions[version]);
    ShelfUnchanged(t, back, version);
  }

  /** The item row is rewritten from the snapshot it showed before. */
  lemma BackToItem(t: Tables, approved: Tables, back: Tables, key: ItemKey, now: string)
    requires Consistent(t, key) && Consistent(approved, key) && Live(t)
    requires approved.item.Some? && approved.item.value.views == t.item.value.views
    requires var latest := t.item.value.latest;
      && DecodeSnapshot(key, latest, t.versions[latest]).Some?
      && var row := t.versions[latest];
        var restored := Activate(approved, DecodeSnapshot(key, latest, row).value, row.creator,
                                 RestoreActivation(row, now));
        back.item == restored.item && back.taxonomy == restored.taxonomy
    ensures back.item.Some? && back.taxonomy == t.taxonomy
    ensures back.item.value.(publishedAt := "", updatedAt := "") == t.item.value.(publishedAt := "", updatedAt := "")
  {
    var latest := t.item.value.latest;
    var row := t.versions[latest];
    RestoringLatestChangesNothing(t, key, now);
    DecodesUnlessBlank(key, latest, row);
    ItemTaxonomy(approved, key, DecodeSnapshot(key, latest, row).value);
    ItemTaxonomy(t, key, DecodeSnapshot(key, latest, row).value);
  }

  // --------------------------------------------------------- legacy reviews

  /** Flipping one version's flag alone leaves its platform rows behind. */
  lemma FlagsBroken(platforms: map<(string, string), PlatformRow>, versions: map<string, VersionRow>, version: string,
                    row: VersionRow)
    requires FlagsAgree(platforms, versions) && version in versions && row.published != versions[version].published
    ensures !FlagsAgree(platforms, versions[version := row])
  {
    assert HasPlatform(platforms, version);
    var p :| (version, p) in platforms;
    assert platforms[(version, p)].published == versions[version].published;
  }

  lemma LegacyBreaks(t: Tables, key: ItemKey, a: Lifo, review: Review, now: string)
    requires Simulates(t, key, a) && t.item.Some? && (review.status == Approved) != Live(t)
    ensures var next := ReviewLegacy(t, review, now).tables; !FlagsAgree(next.platforms, next.versions)
  {
    var latest := t.item.value.latest;
    var row := t.versions[latest].(review := review, published := review.status == Approved);
    LiveLatestIsVisible(t, key);
    FlagsBroken(t.platforms, t.versions, latest, row);
    assert ReviewLegacy(t, review, now).tables.versions == t.versions[latest := row];
  }

  lemma LegacyKeeps(t: Tables, key: ItemKey, a: Lifo, review: Review, now: string)
    requires Simulates(t, key, a) && a.pending.None? && t.item.Some? && (review.status == Approved) == Live(t)
    ensures Simulates(ReviewLegacy(t, review, now).tables, key,
                      a.(pending := if review.status == Pending then Some(t.item.value.latest) else None))
  {
    var latest := t.item.value.latest;
    var row := t.versions[latest].(review := review, published := review.status == Approved);
    StackIsPublic(t, key, a);
    LegacyKeepsConsistent(t, key, review, now);
    assert ReviewLegacy(t, review, now).tables.versions == t.versions[latest := row];
    OnlyPendingUpdate(t.versions, a.pending, latest, row);
    LegacyShelf(t, key, a, row);
  }

  lemma LegacyShelf(t: Tables, key: ItemKey, a: Lifo, row: VersionRow)
    requires Simulates(t, key, a) && a.pending.None? && t.item.Some?
    requires var kept := t.versions[t.item.value.latest]; row == kept.(review := row.review)
    requires row.published <==> row.review.status == Approved
    ensures var next := t.versions[t.item.value.latest := row];
      ShelfStacked(next, a.stack) && FlagsAgree(t.platforms, next) && FilesOwned(t.artifacts, next)
  {
    var latest := t.item.value.latest;
    var next := t.versions[latest := row];
    assert RowConsistent(key, latest, t.versions[latest]);
    if row.published {
      assert SameStanding(t.versions, next);
      StandingDecides(t.versions, next, a, t.platforms);
    } else {
      assert a.stack == [];
      ShelfKept(t.versions, a.stack, latest, row);
      FlagsMarked(t.platforms, t.versions, t.platforms, latest, row);
    }
  }

  /** A review that finds nothing pending leaves a stack behind exactly when it does
      not change whether the item is live: it never updates platform rows, and taking
      a live item offline leaves the lower versions published. */
  lemma LegacyKeepsStackExactly(t: Tables, key: ItemKey, a: Lifo, op: Op)
    requires Simulates(t, key, a) && a.pending.None? && t.item.Some?
    requires op.Judge? && NormalizeStatus(op.status, None).Some?
    ensures Apply(t, key, op).Done?
    ensures (exists b :: Simulates(After(t, key, op), key, b))
      <==> ((NormalizeStatus(op.status, None) == Some(Approved)) == Live(t))
  {
    PendingFacts(t, key, None);
    var review := Review(NormalizeStatus(op.status, None).value, TrimSpace(op.note), op.now, ReviewerOf(op.reviewer));
    var next := After(t, key, op);
    assert next == ReviewLegacy(t, review, op.now).tables;
    if (review.status == Approved) == Live(t) {
      LegacyKeeps(t, key, a, review, op.now);
    } else {
      LegacyBreaks(t, key, a, review, op.now);
    }
  }
}

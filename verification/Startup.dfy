/** What starting the server does to the rows of an item: backfillVersionPlatforms gives
    every version a universal platform row, and one for each platform it has a file for.
    The other start tasks have nothing to do on rows the server has written itself. */
module Startup {
  import opened Text
  import opened SemVer
  import opened Market
  import opened Release
  import opened Consistency
  import opened ReleaseStack
  import Backfill
  import Migration

  const UNIVERSAL := "universal"

  /** A platform row filled from the columns of its version, and published as it is. */
  function FilledPlatform(t: Tables, version: string, platform: string, createdAt: string, updatedAt: string)
    : PlatformRow
    requires t.item.Some? && version in t.versions
  {
    var row := t.versions[version];
    PlatformRow(PlatformSpec(platform, "", "", row.content.description, row.content.readme,
                             t.item.value.payload.minDesktop,
                             row.content.metadata, row.content.dependencies, row.content.protocol),
                row.published, createdAt, updatedAt)
  }

  function Either(first: string, second: string): string { if first != "" then first else second }

  function UniversalRow(t: Tables, version: string): PlatformRow
    requires t.item.Some? && version in t.versions
  {
    var publishedAt := t.versions[version].publishedAt;
    FilledPlatform(t, version, UNIVERSAL, publishedAt, Either(t.item.value.updatedAt, publishedAt))
  }

  function FileRow(t: Tables, k: (string, string)): PlatformRow
    requires t.item.Some? && k in t.artifacts && k.0 in t.versions
  {
    var at := Either(t.artifacts[k].createdAt, t.versions[k.0].publishedAt);
    FilledPlatform(t, k.0, k.1, at, at)
  }

  /** The first INSERT OR IGNORE statement: a row that is there already stays. */
  function WithUniversals(t: Tables): Tables {
    if t.item.None? then t
    else t.(platforms := (map v | v in t.versions :: (v, UNIVERSAL) := UniversalRow(t, v)) + t.platforms)
  }

  /** The second one. */
  function WithFilePlatforms(t: Tables): Tables {
    if t.item.None? then t
    else t.(platforms := (map k | k in t.artifacts && k.0 in t.versions && k.1 != "" :: FileRow(t, k)) + t.platforms)
  }

  function Restarted(t: Tables): Tables { WithFilePlatforms(WithUniversals(t)) }

  // ---------------------------------------------------------- rows it writes

  /** The platform row was missing and is added. */
  predicate Added(t: Tables, version: string, platform: string) {
    && t.item.Some? && version in t.versions && (version, platform) !in t.platforms
    && (platform == UNIVERSAL || (platform != "" && (version, platform) in t.artifacts))
  }

  /** The platform shows its version: the texts and records of the version, the desktop
      release the item asks for, and no operating system or architecture of its own. */
  predicate ShowsVersion(spec: PlatformSpec, t: Tables, version: string, platform: string)
    requires t.item.Some? && version in t.versions
  {
    var content := t.versions[version].content;
    && spec.key == platform && spec.os == "" && spec.arch == ""
    && spec.description == content.description && spec.readme == content.readme
    && spec.metadata == content.metadata && spec.dependencies == content.dependencies
    && spec.protocol == content.protocol && spec.minDesktop == t.item.value.payload.minDesktop
  }

  /** A universal platform dates from the publication of its version and changed with the
      item, any other dates from its file; where no time is kept it is the publication's. */
  predicate DatedBy(row: PlatformRow, t: Tables, version: string, platform: string)
    requires t.item.Some? && version in t.versions
  {
    var published := t.versions[version].publishedAt;
    if platform == "universal" then
      && row.createdAt == published
      && (t.item.value.updatedAt != "" ==> row.updatedAt == t.item.value.updatedAt)
      && (t.item.value.updatedAt == "" ==> row.updatedAt == published)
    else
      && row.createdAt == row.updatedAt
      && (version, platform) in t.artifacts
      && var sent := t.artifacts[(version, platform)].createdAt;
         (sent != "" ==> row.createdAt == sent) && (sent == "" ==> row.createdAt == published)
  }

  /** Exactly those rows are added, each for its version and published if and only if that
      is; rows that were there and all other tables stay as they are. */
  lemma RestartAdds(t: Tables, version: string, platform: string)
    ensures var next := Restarted(t);
      && next == t.(platforms := next.platforms)
      && ((version, platform) in next.platforms <==> (version, platform) in t.platforms || Added(t, version, platform))
      && ((version, platform) in t.platforms ==>
        next.platforms[(version, platform)] == t.platforms[(version, platform)])
      && (Added(t, version, platform) ==>
            && next.platforms[(version, platform)].published == t.versions[version].published
            && ShowsVersion(next.platforms[(version, platform)].spec, t, version, platform)
            && DatedBy(next.platforms[(version, platform)], t, version, platform))
  {
  }

  lemma SameRows(a: map<(string, string), PlatformRow>, b: map<(string, string), PlatformRow>)
    requires forall v, p :: (v, p) in a <==> (v, p) in b
    requires forall v, p :: (v, p) in a && (v, p) in b ==> a[(v, p)] == b[(v, p)]
    ensures a == b
  {
    forall k ensures k in a <==> k in b {
      assert k == (k.0, k.1);
    }
    forall k | k in a ensures a[k] == b[k] {
      assert k == (k.0, k.1);
    }
  }

  /** A second start finds nothing to add. */
  lemma RestartIsIdempotent(t: Tables)
    ensures Restarted(Restarted(t)) == Restarted(t)
  {
    var once := Restarted(t);
    forall v, p
      ensures (v, p) in Restarted(once).platforms <==> (v, p) in once.platforms
      ensures (v, p) in once.platforms ==> Restarted(once).platforms[(v, p)] == once.platforms[(v, p)]
    {
      RestartAdds(t, v, p);
      RestartAdds(once, v, p);
    }
    RestartAdds(once, "", "");
    SameRows(Restarted(once).platforms, once.platforms);
  }

  // ------------------------------------------------------------ invariants

  lemma RestartKeepsConsistent(t: Tables, key: ItemKey)
    requires Consistent(t, key)
    ensures Consistent(Restarted(t), key)
  {
    RestartAdds(t, "", "");
  }

  lemma RestartKeepsFlags(t: Tables)
    requires FlagsAgree(t.platforms, t.versions)
    ensures FlagsAgree(Restarted(t).platforms, Restarted(t).versions)
  {
    var next := Restarted(t);
    RestartAdds(t, "", "");
    forall k | k in next.platforms
      ensures k.0 in next.versions && next.platforms[k].published == next.versions[k.0].published
    {
      RestartAdds(t, k.0, k.1);
    }
    forall v | v in next.versions ensures HasPlatform(next.platforms, v) {
      assert HasPlatform(t.platforms, v);
      var p :| (v, p) in t.platforms;
      RestartAdds(t, v, p);
    }
  }

  /** Starting the server leaves the stack and the pending version alone. */
  lemma RestartSimulates(t: Tables, key: ItemKey, a: Lifo)
    requires Simulates(t, key, a)
    ensures Simulates(Restarted(t), key, a)
  {
    RestartAdds(t, "", "");
    RestartKeepsConsistent(t, key);
    RestartKeepsFlags(t);
  }

  /** The other start tasks look for versions with a prefix, latest versions without a
      snapshot and creators kept in metadata: consistent rows have none of them. */
  lemma OtherTasksAreIdle(t: Tables, key: ItemKey)
    requires Consistent(t, key)
    ensures forall v :: v in t.versions ==> !Migration.Prefixed(v)
    ensures !Backfill.LacksSnapshot(t)
    ensures t.item.Some? ==> "creatorId" !in t.item.value.payload.metadata
  {
    forall v | v in t.versions ensures !Migration.Prefixed(v) {
      assert RowConsistent(key, v, t.versions[v]);
      CanonicalIsBare(v);
    }
    if t.item.Some? {
      CreatorIsNoMetadata(t.versions[t.item.value.latest].snapshot.value);
    }
  }

  lemma CanonicalIsBare(version: string)
    requires Canonical(version) == version
    ensures !Migration.Prefixed(version)
  {
  }

  lemma CreatorIsNoMetadata(req: Request)
    ensures "creatorId" !in PayloadOf(req).metadata
  {
    TrimmedIsFixed("creatorId");
    CreatorKeyFolded();
  }

  // --------------------------------------------------------------- effects

  /** Of the checks of a submission, only the one for a taken platform sees the rows added. */
  lemma GuardAfterRestart(t: Tables, version: string, platform: string, creator: string)
    ensures PublishGuard(Restarted(t), version, platform, creator).None?
      <==> PublishGuard(t, version, platform, creator).None?
           && !(PendingVersion(t).Some? && Added(t, version, platform))
  {
    RestartAdds(t, version, platform);
    PendingAfterRestart(t, version, creator);
  }

  lemma PendingAfterRestart(t: Tables, version: string, creator: string)
    ensures PendingVersion(Restarted(t)) == PendingVersion(t)
    ensures PendingBlocks(Restarted(t), version, creator) <==> PendingBlocks(t, version, creator)
  {
    RestartAdds(t, "", "");
  }

  /** After a start the same submissions are accepted, except that a pending version can
      no longer gain a platform the start has filled in. */
  lemma SubmissionAfterRestart(t: Tables, req: Request, artifact: Option<Artifact>, now: string)
    ensures Publish(Restarted(t), req, artifact, now).Done?
      <==> Publish(t, req, artifact, now).Done?
           && !(PendingVersion(t).Some? && Added(t, Canonical(req.version), PlatformOf(req).key))
  {
    var canonical := req.(version := Canonical(req.version));
    assert PlatformOf(canonical) == PlatformOf(req);
    GuardAfterRestart(t, canonical.version, PlatformOf(req).key, CreatorOf(canonical));
  }

  /** What the public read it still reads; what it reads besides are the platforms added
      to published versions. */
  lemma ReadsAfterRestart(t: Tables, version: string, platform: string)
    ensures var next := Restarted(t);
      && Live(next) == Live(t) && PublishedVersions(next) == PublishedVersions(t)
      && GetArtifact(next, version, platform) == GetArtifact(t, version, platform)
      && GetADPYAML(next, version) == GetADPYAML(t, version)
      && (if Added(t, version, platform) && version in PublishedVersions(t) && Live(t)
          then GetPlatform(next, version, platform).Some?
               && ShowsVersion(GetPlatform(next, version, platform).value, t, version, platform)
          else GetPlatform(next, version, platform) == GetPlatform(t, version, platform))
  {
    RestartAdds(t, version, platform);
  }

  /** After a start every version on the stack has a public universal platform, whether
      or not anyone has published one. */
  lemma EveryReleaseIsUniversal(t: Tables, key: ItemKey, a: Lifo, version: string)
    requires Simulates(t, key, a)
    ensures GetPlatform(Restarted(t), version, UNIVERSAL).Some? <==> version in a.stack
  {
    RestartSimulates(t, key, a);
    RestartAdds(t, version, UNIVERSAL);
    VisibleIffStacked(Restarted(t), key, a, version, UNIVERSAL);
  }

  // ------------------------------------------------------- runs with restarts

  datatype Move = Work(op: Op) | Start

  ghost function AfterMove(t: Tables, key: ItemKey, move: Move): Tables {
    match move case Work(op) => After(t, key, op) case Start => Restarted(t)
  }

  ghost predicate MoveAllowed(t: Tables, key: ItemKey, move: Move) { move.Work? ==> Legit(t, key, move.op) }

  ghost predicate MoveAt(key: ItemKey, moves: seq<Move>, states: seq<Tables>, i: nat)
    requires i < |moves| && |states| == |moves| + 1
  {
    MoveAllowed(states[i], key, moves[i]) && states[i + 1] == AfterMove(states[i], key, moves[i])
  }

  /** A run in which the server is started again and again. */
  ghost predicate MoveRun(key: ItemKey, moves: seq<Move>, states: seq<Tables>) {
    && |states| == |moves| + 1 && states[0] == NO_ROWS
    && forall i {:trigger MoveAt(key, moves, states, i)} :: 0 <= i < |moves| ==> MoveAt(key, moves, states, i)
  }

  ghost predicate ReviewedMove(t: Tables, move: Move) { move.Work? ==> Reviewed(t, move.op) }

  ghost function LifoMoved(t: Tables, key: ItemKey, a: Lifo, move: Move): Lifo {
    match move case Work(op) => LifoNext(a, op, Apply(t, key, op).Done?, Shown(t)) case Start => a
  }

  ghost function LifoAt(key: ItemKey, moves: seq<Move>, states: seq<Tables>, n: nat): Lifo
    requires n <= |moves| < |states|
  {
    if n == 0 then EMPTY else LifoMoved(states[n - 1], key, LifoAt(key, moves, states, n - 1), moves[n - 1])
  }

  lemma MoveKeepsConsistent(t: Tables, key: ItemKey, move: Move)
    requires Consistent(t, key) && MoveAllowed(t, key, move)
    ensures Consistent(AfterMove(t, key, move), key)
  {
    match move
    case Work(op) => StepKeepsConsistent(t, key, op);
    case Start => RestartKeepsConsistent(t, key);
  }

  /** The invariant of all runs survives every start. */
  lemma {:induction false} MovesAreConsistent(key: ItemKey, moves: seq<Move>, states: seq<Tables>, n: nat)
    requires MoveRun(key, moves, states) && n <= |moves|
    ensures Consistent(states[n], key)
  {
    if n > 0 {
      MovesAreConsistent(key, moves, states, n - 1);
      assert MoveAt(key, moves, states, n - 1);
      MoveKeepsConsistent(states[n - 1], key, moves[n - 1]);
    }
  }

  lemma MoveSimulates(t: Tables, key: ItemKey, a: Lifo, move: Move)
    requires Simulates(t, key, a) && MoveAllowed(t, key, move) && ReviewedMove(t, move)
    ensures Simulates(AfterMove(t, key, move), key, LifoMoved(t, key, a, move))
  {
    match move
    case Work(op) => StepSimulates(t, key, a, op);
    case Start => RestartSimulates(t, key, a);
  }

  /** Reviewed runs are stacks however often the server is started in between. */
  lemma {:induction false} RestartedRunsAreStacks(key: ItemKey, moves: seq<Move>, states: seq<Tables>, n: nat)
    requires MoveRun(key, moves, states) && n <= |moves|
    requires forall i :: 0 <= i < |moves| ==> ReviewedMove(states[i], moves[i])
    ensures Simulates(states[n], key, LifoAt(key, moves, states, n))
  {
    if n == 0 {
      EmptyIsStacked(key);
    } else {
      RestartedRunsAreStacks(key, moves, states, n - 1);
      assert MoveAt(key, moves, states, n - 1);
      MoveSimulates(states[n - 1], key, LifoAt(key, moves, states, n - 1), moves[n - 1]);
    }
  }
}

/** What every run leaves on record: the review log, the view counter, and who owns
    an item. */
module Ledger {
  import opened Text
  import opened SemVer
  import opened Market
  import opened Release
  import opened Consistency

  // ------------------------------------------------------------- review log

  /** to_status of the last event recorded for a version. */
  function LastStatus(events: seq<Event>, version: string): Option<Status> {
    if events == [] then None
    else
      var last := events[|events| - 1];
      if last.version == version then Some(last.to) else LastStatus(events[..|events| - 1], version)
  }

  /** The log knows exactly the versions there are, and each one's status. */
  ghost predicate Audited(versions: map<string, VersionRow>, events: seq<Event>) {
    forall v :: LastStatus(events, v) == if v in versions then Some(versions[v].review.status) else None
  }

  lemma EventDecides(versions: map<string, VersionRow>, events: seq<Event>, event: Event, row: VersionRow)
    requires Audited(versions, events) && row.review.status == event.to
    ensures Audited(versions[event.version := row], events + [event])
  {
    assert (events + [event])[..|events|] == events;
  }

  /** Rows may change in everything but their keys and status. */
  lemma StatusDecides(versions: map<string, VersionRow>, next: map<string, VersionRow>, events: seq<Event>)
    requires Audited(versions, events) && next.Keys == versions.Keys
    requires forall v :: v in versions ==> next[v].review.status == versions[v].review.status
    ensures Audited(next, events)
  {
    forall v ensures LastStatus(events, v) == if v in next then Some(next[v].review.status) else None {
      assert v in next.Keys <==> v in versions.Keys;
    }
  }

  /** What a successful review does to the versions and to the log. */
  ghost predicate Logged(t: Tables, next: Tables, version: string) {
    && version in t.versions
    && |next.events| == |t.events| + 1 && next.events[..|t.events|] == t.events
    && next.events[|t.events|].version == version
    && version in next.versions && next.versions == t.versions[version := next.versions[version]]
    && next.versions[version].review.status == next.events[|t.events|].to
    && next.versions[version].creator == t.versions[version].creator
  }

  lemma ReviewLogged(t: Tables, key: ItemKey, version: string, review: Review, now: string)
    requires version in t.versions && ReviewPending(t, key, version, review, now).Done?
    ensures Logged(t, ReviewPending(t, key, version, review, now).tables, version)
  {
    ReviewShape(t, key, version, review, now);
  }

  lemma LegacyLogged(t: Tables, review: Review, now: string)
    requires t.item.Some? && t.item.value.latest in t.versions
    ensures Logged(t, ReviewLegacy(t, review, now).tables, t.item.value.latest)
  {
  }

  lemma JudgeLogged(t: Tables, key: ItemKey, op: Op) returns (version: string)
    requires Consistent(t, key) && op.Judge? && Apply(t, key, op).Done?
    ensures Logged(t, After(t, key, op), version)
  {
    var review := Review(NormalizeStatus(op.status, None).value, TrimSpace(op.note), op.now, ReviewerOf(op.reviewer));
    if PendingCandidate(t).Some? {
      version := PendingCandidate(t).value;
      ReviewLogged(t, key, version, review, op.now);
    } else {
      version := t.item.value.latest;
      LegacyLogged(t, review, op.now);
    }
  }

  lemma JudgeAudited(t: Tables, key: ItemKey, op: Op)
    requires Consistent(t, key) && Audited(t.versions, t.events) && op.Judge? && Apply(t, key, op).Done?
    ensures var next := After(t, key, op);
      Audited(next.versions, next.events) && |next.events| == |t.events| + 1 && t.events <= next.events
  {
    var version := JudgeLogged(t, key, op);
    LoggedIsAudited(t, After(t, key, op), version);
  }

  lemma LoggedIsAudited(t: Tables, next: Tables, version: string)
    requires Audited(t.versions, t.events) && Logged(t, next, version)
    ensures Audited(next.versions, next.events) && |next.events| == |t.events| + 1 && t.events <= next.events
  {
    var event := next.events[|t.events|];
    assert next.events == t.events + [event];
    EventDecides(t.versions, t.events, event, next.versions[version]);
  }

  lemma RetireAudited(t: Tables, key: ItemKey, version: string, rows: seq<string>, now: string)
    requires Audited(t.versions, t.events) && Unpublish(t, key, version, rows, now).Done?
    ensures var next := Unpublish(t, key, version, rows, now).tables;
      Audited(next.versions, next.events) && next.events == t.events
  {
    StatusDecides(t.versions, Unpublish(t, key, version, rows, now).tables.versions, t.events);
  }

  /** Submissions and reviews append one event each, nothing else touches the log,
      and the log keeps telling every version's status. */
  lemma StepKeepsAudited(t: Tables, key: ItemKey, op: Op)
    requires Consistent(t, key) && Audited(t.versions, t.events)
    ensures var next := After(t, key, op);
      && Audited(next.versions, next.events)
      && t.events <= next.events
      && |next.events| - |t.events| == if Apply(t, key, op).Done? && (op.Submit? || op.Judge?) then 1 else 0
  {
    if Apply(t, key, op).Done? {
      match op
      case Submit(req, artifact, now) =>
        var canonical := req.(version := Canonical(req.version));
        EventDecides(t.versions, t.events, SubmittedEvent(t, canonical, now), SubmittedVersion(t, canonical, now));
      case Judge(_, _, _, _) => JudgeAudited(t, key, op);
      case Retire(version, rows, now) => RetireAudited(t, key, version, rows, now);
      case CountOneView =>
      case RenameUser(oldId, newId) => StatusDecides(t.versions, Rekey(t, oldId, newId).versions, t.events);
    }
  }

  /** In every run the log is complete: the last event of a version tells its status. */
  lemma {:induction false} RunsAreAudited(key: ItemKey, ops: seq<Op>, states: seq<Tables>)
    requires Run(key, ops, states)
    ensures Audited(states[|ops|].versions, states[|ops|].events)
  {
    if ops != [] {
      var n := |ops| - 1;
      RunPrefix(key, ops, states);
      RunsAreAudited(key, ops[..n], states[..n + 1]);
      RunsAreConsistent(key, ops, states);
      StepKeepsAudited(states[n], key, ops[n]);
    }
  }

  // ------------------------------------------------------------ view counter

  function Views(t: Tables): nat { if t.item.Some? then t.item.value.views else 0 }

  /** The successful view counts of a run. */
  ghost function ViewsCounted(key: ItemKey, ops: seq<Op>, states: seq<Tables>): nat
    requires |states| == |ops| + 1
  {
    if ops == [] then 0
    else
      var n := |ops| - 1;
      ViewsCounted(key, ops[..n], states[..n + 1])
      + if ops[n].CountOneView? && Apply(states[n], key, ops[n]).Done? then 1 else 0
  }

  ghost predicate KeepsViews(t: Tables, outcome: Outcome) {
    outcome.Done? ==> Views(outcome.tables) == Views(t) && (t.item.Some? ==> outcome.tables.item.Some?)
  }

  lemma ReviewKeepsViews(t: Tables, key: ItemKey, version: string, review: Review, now: string)
    requires version in t.versions
    ensures KeepsViews(t, ReviewPending(t, key, version, review, now))
  {
    if ReviewPending(t, key, version, review, now).Done? {
      if review.status == Approved {
        ApprovedItem(t, key, version, review, now);
      } else {
        RefusedItem(t, key, version, review, now);
      }
    }
  }

  lemma RetireKeepsViews(t: Tables, key: ItemKey, version: string, rows: seq<string>, now: string)
    ensures KeepsViews(t, Unpublish(t, key, version, rows, now))
  {
  }

  lemma JudgeKeepsViews(t: Tables, key: ItemKey, op: Op)
    requires op.Judge?
    ensures KeepsViews(t, Apply(t, key, op))
  {
    var status := NormalizeStatus(op.status, None);
    if status.Some? && PendingCandidate(t).Some? {
      ReviewKeepsViews(t, key, PendingCandidate(t).value,
                       Review(status.value, TrimSpace(op.note), op.now, ReviewerOf(op.reviewer)), op.now);
    }
  }

  lemma StepCounts(t: Tables, key: ItemKey, op: Op)
    ensures Views(After(t, key, op)) == Views(t) + if op.CountOneView? && Apply(t, key, op).Done? then 1 else 0
    ensures t.item.Some? ==> After(t, key, op).item.Some?
  {
    match op
    case Submit(_, _, _) =>
    case Judge(_, _, _, _) => JudgeKeepsViews(t, key, op);
    case Retire(version, rows, now) => RetireKeepsViews(t, key, version, rows, now);
    case CountOneView =>
    case RenameUser(_, _) =>
  }

  /** No release operation loses or invents a view. */
  lemma {:induction false} ViewsAreConserved(key: ItemKey, ops: seq<Op>, states: seq<Tables>)
    requires Run(key, ops, states)
    ensures Views(states[|ops|]) == ViewsCounted(key, ops, states)
  {
    if ops != [] {
      var n := |ops| - 1;
      RunPrefix(key, ops, states);
      ViewsAreConserved(key, ops[..n], states[..n + 1]);
      StepCounts(states[n], key, ops[n]);
    }
  }

  // --------------------------------------------------------------- ownership

  ghost predicate CreatedBy(versions: map<string, VersionRow>, owners: set<string>) {
    forall v :: v in versions ==> versions[v].creator in owners
  }

  /** Item and versions name one creator. */
  ghost predicate OwnedBy(t: Tables, creator: string) {
    && creator != ""
    && (t.item.Some? ==> t.item.value.creator == creator)
    && CreatedBy(t.versions, {creator})
  }

  /** Calls that name their creator, and renames to a proper identifier. */
  predicate Signed(op: Op) {
    match op
    case Submit(req, _, _) => CreatorOf(req) != ""
    case RenameUser(_, newId) => newId != ""
    case _ => true
  }

  /** The owner after a step: renaming alone changes it. */
  function OwnerAfter(creator: string, op: Op): string {
    match op
    case RenameUser(oldId, newId) => Rename(creator, oldId, newId)
    case _ => creator
  }

  lemma SubmitKeepsCreators(t: Tables, req: Request, artifact: Option<Artifact>, now: string, owners: set<string>)
    requires Publish(t, req, artifact, now).Done? && CreatedBy(t.versions, owners) && CreatorOf(req) in owners
    ensures CreatedBy(Publish(t, req, artifact, now).tables.versions, owners)
  {
    var canonical := req.(version := Canonical(req.version));
    assert Publish(t, req, artifact, now).tables == Submitted(t, canonical, artifact, now);
  }

  lemma JudgeKeepsCreators(t: Tables, key: ItemKey, op: Op, owners: set<string>)
    requires Consistent(t, key) && op.Judge? && Apply(t, key, op).Done? && CreatedBy(t.versions, owners)
    ensures CreatedBy(After(t, key, op).versions, owners)
  {
    var version := JudgeLogged(t, key, op);
  }

  lemma RetireKeepsCreators(t: Tables, key: ItemKey, version: string, rows: seq<string>, now: string,
                            owners: set<string>)
    requires Unpublish(t, key, version, rows, now).Done? && CreatedBy(t.versions, owners)
    ensures CreatedBy(Unpublish(t, key, version, rows, now).tables.versions, owners)
  {
  }

  /** No step but a rename brings in a creator who did not submit. */
  lemma StepKeepsCreators(t: Tables, key: ItemKey, op: Op, owners: set<string>)
    requires Consistent(t, key) && CreatedBy(t.versions, owners) && !op.RenameUser?
    requires op.Submit? ==> CreatorOf(op.req) in owners
    ensures CreatedBy(After(t, key, op).versions, owners)
  {
    if Apply(t, key, op).Done? {
      match op
      case Submit(req, artifact, now) => SubmitKeepsCreators(t, req, artifact, now, owners);
      case Judge(_, _, _, _) => JudgeKeepsCreators(t, key, op, owners);
      case Retire(version, rows, now) => RetireKeepsCreators(t, key, version, rows, now, owners);
      case CountOneView =>
    }
  }

  /** An accepted submission names the owner. */
  lemma SubmitterIsOwner(t: Tables, req: Request, artifact: Option<Artifact>, now: string, creator: string)
    requires Publish(t, req, artifact, now).Done? && CreatorOf(req) != ""
    requires t.item.Some? && OwnedBy(t, creator)
    ensures CreatorOf(req) == creator
  {
    assert CreatorOf(req.(version := Canonical(req.version))) == CreatorOf(req);
  }

  lemma VersionsKeepOwner(t: Tables, key: ItemKey, op: Op, creator: string)
    requires Consistent(t, key) && Signed(op) && t.item.Some? && OwnedBy(t, creator) && Apply(t, key, op).Done?
    ensures CreatedBy(After(t, key, op).versions, {OwnerAfter(creator, op)})
  {
    if !op.RenameUser? {
      if op.Submit? {
        SubmitterIsOwner(t, op.req, op.artifact, op.now, creator);
      }
      StepKeepsCreators(t, key, op, {creator});
    }
  }

  /** The item's creator is that of its latest version, in every consistent state. */
  lemma ItemCreatedByVersions(t: Tables, key: ItemKey, owners: set<string>)
    requires Consistent(t, key) && CreatedBy(t.versions, owners)
    ensures t.item.Some? ==> t.item.value.creator in owners
  {
  }

  lemma StepKeepsOwner(t: Tables, key: ItemKey, op: Op, creator: string)
    requires Consistent(t, key) && Legit(t, key, op) && Signed(op)
    requires t.item.Some? && OwnedBy(t, creator)
    ensures After(t, key, op).item.Some? && OwnedBy(After(t, key, op), OwnerAfter(creator, op))
  {
    StepCounts(t, key, op);
    if Apply(t, key, op).Done? {
      StepKeepsConsistent(t, key, op);
      VersionsKeepOwner(t, key, op, creator);
      ItemCreatedByVersions(After(t, key, op), key, {OwnerAfter(creator, op)});
    }
  }

  /** The first submission settles the owner. */
  lemma FirstStepOwns(t: Tables, key: ItemKey, op: Op)
    requires Consistent(t, key) && Legit(t, key, op) && Signed(op) && t.item.None?
    requires After(t, key, op).item.Some?
    ensures op.Submit? && OwnedBy(After(t, key, op), CreatorOf(op.req))
  {
    if op.Judge? {
      PendingIsUnique(t, key, "");
      NothingPending(t, key);
    }
  }

  /** In signed runs the item always has one owner, shared by all its versions. */
  lemma {:induction false} RunsAreOwned(key: ItemKey, ops: seq<Op>, states: seq<Tables>)
    requires Run(key, ops, states) && forall i :: 0 <= i < |ops| ==> Signed(ops[i])
    ensures states[|ops|].item.Some? ==> OwnedBy(states[|ops|], states[|ops|].item.value.creator)
  {
    if ops != [] {
      var n := |ops| - 1;
      RunPrefix(key, ops, states);
      RunsAreOwned(key, ops[..n], states[..n + 1]);
      RunsAreConsistent(key, ops, states);
      if states[n].item.Some? {
        StepKeepsOwner(states[n], key, ops[n], states[n].item.value.creator);
      } else if states[|ops|].item.Some? {
        FirstStepOwns(states[n], key, ops[n]);
      }
    }
  }
}

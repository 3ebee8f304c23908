/** Concrete inputs on which the server departs from what one would expect. The
    general statements are in the modules named; here are runs that reach them. */
module Witnesses {
  import opened Text
  import opened SemVer
  import opened Market
  import opened Release
  import opened PublicView
  import opened ReleaseStack
  import opened Backfill
  import opened AdpRelease
  import Adp
  import AdpMerge
  import Startup
  import opened Accounts
  import opened Creators

  const TOOL := ItemKey(CliTool, "demo")

  const PENDING := "pending"

  const FIRST := Request(
    CliTool, "demo", "Demo", "1.0.0", "", "", [], "", "", "", "universal", map[], "[]", "{}", None, None, "",
    PENDING, "alice", "[]")

  const NAMELESS := FIRST.(name := "")

  const APPROVE := Judge("approved", "", "", "t1")
  const REJECT := Judge("rejected", "", "", "t2")

  lemma LowerWord(word: string)
    requires forall c :: c in word ==> 'a' <= c <= 'z'
    ensures TrimSpace(ToLower(word)) == word
  {
    PlatformTextIsLower(word);
    if word != "" {
      assert word[0] in word && word[|word| - 1] in word;
    }
    TrimmedIsFixed(word);
  }

  predicate LowerCase(word: string) { forall i :: 0 <= i < |word| ==> 'a' <= word[i] <= 'z' }

  /** A status in lower case is read as it stands. */
  lemma StatusOfWord(word: string, fallback: Option<Status>)
    requires LowerCase(word)
    ensures word == "pending" ==> NormalizeStatus(word, fallback) == Some(Pending)
    ensures word == "approved" ==> NormalizeStatus(word, fallback) == Some(Approved)
    ensures word == "rejected" ==> NormalizeStatus(word, fallback) == Some(Rejected)
  {
    LowerWord(word);
  }

  lemma PendingWord()
    ensures NormalizeStatus(PENDING, Some(Approved)) == Some(Pending)
  {
    StatusOfWord(PENDING, Some(Approved));
  }

  lemma ApprovedWord()
    ensures NormalizeStatus(APPROVE.status, None) == Some(Approved)
  {
    StatusOfWord(APPROVE.status, None);
  }

  lemma RejectedWord()
    ensures NormalizeStatus(REJECT.status, None) == Some(Rejected)
  {
    StatusOfWord(REJECT.status, None);
  }

  lemma FirstVersion()
    ensures Canonical("1.0.0") == "1.0.0" && TrimSpace("Demo") != "" && TrimSpace("") == ""
  {
    TrimmedIsFixed("1.0.0");
    TrimmedIsFixed("Demo");
  }

  // ------------------------------------------------------------ submissions

  /** The first submission of a version, as the publish handlers make it. */
  predicate FirstSubmission(key: ItemKey, req: Request) {
    KeyOf(req) == key && SubmittedStatus(req) == Pending && Canonical(req.version) != ""
  }

  lemma SubmittedFirst(key: ItemKey, req: Request, file: Option<Artifact>, now: string)
    requires FirstSubmission(key, req)
    ensures var next := After(NO_ROWS, key, Submit(req, file, now));
      && Simulates(next, key, Lifo([], Some(Canonical(req.version))))
      && Canonical(req.version) in next.versions
      && (Named(next.versions[Canonical(req.version)]) <==> TrimSpace(req.name) != "")
      && Apply(NO_ROWS, key, Submit(req, file, now)).Done?
      && next == Submitted(NO_ROWS, req.(version := Canonical(req.version)), file, now)
  {
    var canonical := req.(version := Canonical(req.version));
    EmptyIsStacked(key);
    SubmissionTaken(NO_ROWS, key, EMPTY, req, file, now);
    PendingFacts(NO_ROWS, key, None);
    StepSimulates(NO_ROWS, key, EMPTY, Submit(req, file, now));
    assert After(NO_ROWS, key, Submit(req, file, now)) == Submitted(NO_ROWS, canonical, file, now);
  }

  // ---------------------------------------------------------- legacy reviews

  lemma ApprovedFirst(t: Tables, key: ItemKey, version: string, approve: Op)
    requires Simulates(t, key, Lifo([], Some(version))) && version in t.versions && Named(t.versions[version])
    requires approve.Judge? && NormalizeStatus(approve.status, None) == Some(Approved)
    ensures Simulates(After(t, key, approve), key, Lifo([version], None)) && Live(After(t, key, approve))
    ensures Reviewed(t, approve)
  {
    var a := Lifo([], Some(version));
    PendingFacts(t, key, a.pending);
    ReviewTaken(t, key, a, approve);
    StepSimulates(t, key, a, approve);
    assert [] + [version] == [version];
    StackIsPublic(After(t, key, approve), key, Lifo([version], None));
  }

  lemma RejectedLive(t: Tables, key: ItemKey, version: string, reject: Op)
    requires Simulates(t, key, Lifo([version], None)) && Live(t)
    requires reject.Judge? && NormalizeStatus(reject.status, None) == Some(Rejected)
    ensures Apply(t, key, reject).Done? && forall b :: !Simulates(After(t, key, reject), key, b)
  {
    LegacyKeepsStackExactly(t, key, Lifo([version], None), reject);
  }

  lemma RunOfTwo(key: ItemKey, one: Op, two: Op, s1: Tables, s2: Tables)
    requires Legit(NO_ROWS, key, one) && Legit(s1, key, two)
    requires s1 == After(NO_ROWS, key, one) && s2 == After(s1, key, two)
    ensures Run(key, [one, two], [NO_ROWS, s1, s2])
  {
    RunExtended(key, [], [NO_ROWS], one, s1);
    assert [] + [one] == [one] && [NO_ROWS] + [s1] == [NO_ROWS, s1];
    RunExtended(key, [one], [NO_ROWS, s1], two, s2);
    assert [one] + [two] == [one, two] && [NO_ROWS, s1] + [s2] == [NO_ROWS, s1, s2];
  }

  lemma RunOfThree(key: ItemKey, one: Op, two: Op, three: Op, s1: Tables, s2: Tables, s3: Tables)
    requires Legit(NO_ROWS, key, one) && Legit(s1, key, two) && Legit(s2, key, three)
    requires s1 == After(NO_ROWS, key, one) && s2 == After(s1, key, two) && s3 == After(s2, key, three)
    ensures Run(key, [one, two, three], [NO_ROWS, s1, s2, s3])
  {
    RunOfTwo(key, one, two, s1, s2);
    RunExtended(key, [one, two], [NO_ROWS, s1, s2], three, s3);
    assert [one, two] + [three] == [one, two, three] && [NO_ROWS, s1, s2] + [s3] == [NO_ROWS, s1, s2, s3];
  }

  /** Submit, approve, reject: after the third call, which finds nothing pending, the
      rows of the item are those of no stack. */
  lemma RejectingLiveBreaksStack(key: ItemKey, req: Request, now: string, approve: Op, reject: Op)
    returns (states: seq<Tables>)
    requires FirstSubmission(key, req) && TrimSpace(req.name) != ""
    requires approve.Judge? && NormalizeStatus(approve.status, None) == Some(Approved)
    requires reject.Judge? && NormalizeStatus(reject.status, None) == Some(Rejected)
    ensures Run(key, [Submit(req, None, now), approve, reject], states)
    ensures Apply(states[2], key, reject).Done?
    ensures Simulates(states[2], key, Lifo([Canonical(req.version)], None))
    ensures forall b :: !Simulates(states[3], key, b)
  {
    var submit := Submit(req, None, now);
    var s1 := After(NO_ROWS, key, submit);
    var s2 := After(s1, key, approve);
    SubmittedFirst(key, req, None, now);
    ApprovedFirst(s1, key, Canonical(req.version), approve);
    RejectedLive(s2, key, Canonical(req.version), reject);
    RunOfThree(key, submit, approve, reject, s1, s2, After(s2, key, reject));
    states := [NO_ROWS, s1, s2, After(s2, key, reject)];
  }

  lemma LegacyReviewBreaksStack() returns (states: seq<Tables>)
    ensures Run(TOOL, [Submit(FIRST, None, "t0"), APPROVE, REJECT], states)
    ensures Simulates(states[2], TOOL, Lifo(["1.0.0"], None))
    ensures forall b :: !Simulates(states[3], TOOL, b)
  {
    PendingWord();
    ApprovedWord();
    RejectedWord();
    FirstVersion();
    states := RejectingLiveBreaksStack(TOOL, FIRST, "t0", APPROVE, REJECT);
  }

  // -------------------------------------------------------------- blank names

  /** A submission without a name can never be decided: its snapshot does not decode. */
  lemma NamelessIsStuck(key: ItemKey, req: Request, now: string, judge: Op)
    requires FirstSubmission(key, req) && TrimSpace(req.name) == ""
    requires judge.Judge? && NormalizeStatus(judge.status, None).Some?
    ensures var next := After(NO_ROWS, key, Submit(req, None, now));
      && IsPending(next.versions, Canonical(req.version))
      && Apply(next, key, judge) == Failed(SnapshotMissing)
  {
    var next, version := After(NO_ROWS, key, Submit(req, None, now)), Canonical(req.version);
    SubmittedFirst(key, req, None, now);
    PendingFacts(next, key, Some(version));
    ReviewTaken(next, key, Lifo([], Some(version)), judge);
  }

  lemma BlankNameCannotBeRestored()
    ensures var next := After(NO_ROWS, TOOL, Submit(NAMELESS, None, "t0"));
      IsPending(next.versions, "1.0.0") && Apply(next, TOOL, APPROVE) == Failed(SnapshotMissing)
  {
    PendingWord();
    ApprovedWord();
    FirstVersion();
    NamelessIsStuck(TOOL, NAMELESS, "t0", APPROVE);
  }

  // --------------------------------------------------------- manifests erased

  const MANIFEST := FIRST.(adpYaml := "name: demo")
  const SECOND := FIRST.(platformKey := "linux-x64")

  /** What a second submission of the same version for another platform has to meet. */
  predicate OtherPlatform(first: Request, second: Request) {
    && Canonical(first.version) == first.version == Canonical(second.version)
    && CreatorOf(second) == CreatorOf(first) && PlatformOf(second).key != PlatformOf(first).key
  }

  lemma SecondFits(key: ItemKey, first: Request, file: Option<Artifact>, second: Request, other: Option<Artifact>)
    requires FirstSubmission(key, first) && OtherPlatform(first, second)
    ensures Apply(After(NO_ROWS, key, Submit(first, file, "t0")), key, Submit(second, other, "t1")).Done?
  {
    SubmittedFirst(key, first, file, "t0");
    SubmissionTaken(
      After(NO_ROWS, key, Submit(first, file, "t0")), key, Lifo([], Some(first.version)), second, other, "t1");
  }

  /** A further platform of the pending version, sent without a manifest, is accepted
      and erases the manifest stored for it. */
  lemma PlatformWithoutManifestErases()
    ensures var one := After(NO_ROWS, TOOL, Submit(MANIFEST, None, "t0"));
      && GetPublishADPYAML(one, "1.0.0") == Some("name: demo")
      && Apply(one, TOOL, Submit(SECOND, None, "t1")).Done?
      && GetPublishADPYAML(After(one, TOOL, Submit(SECOND, None, "t1")), "1.0.0").None?
  {
    PendingWord();
    FirstVersion();
    ManifestText();
    SecondErases(TOOL, MANIFEST, SECOND);
  }

  lemma ManifestText()
    ensures TrimSpace(MANIFEST.adpYaml) == "name: demo" && TrimSpace(SECOND.adpYaml) == ""
  {
    TrimmedIsFixed("name: demo");
    TrimmedIsFixed("");
  }

  lemma SecondErases(key: ItemKey, first: Request, second: Request)
    requires FirstSubmission(key, first) && OtherPlatform(first, second)
    requires TrimSpace(first.adpYaml) != "" && TrimSpace(second.adpYaml) == ""
    ensures var one := After(NO_ROWS, key, Submit(first, None, "t0"));
      && GetPublishADPYAML(one, first.version) == Some(TrimSpace(first.adpYaml))
      && Apply(one, key, Submit(second, None, "t1")).Done?
      && GetPublishADPYAML(After(one, key, Submit(second, None, "t1")), first.version).None?
  {
    var one := After(NO_ROWS, key, Submit(first, None, "t0"));
    SubmittedFirst(key, first, None, "t0");
    SecondFits(key, first, None, second, None);
    SubmissionStores(NO_ROWS, key, first.version, first, None, "t0");
    SubmissionStores(one, key, first.version, second, None, "t1");
  }

  // ------------------------------------------------------ platforms filled in

  /** The universal platform of a pending version that began with another one can be
      submitted until the server is started, and not afterwards. */
  lemma StartClosesUniversal(key: ItemKey, first: Request, second: Request)
    requires FirstSubmission(key, first) && OtherPlatform(first, second) && PlatformOf(second).key == Startup.UNIVERSAL
    ensures var one := After(NO_ROWS, key, Submit(first, None, "t0"));
      Publish(one, second, None, "t1").Done? && Publish(Startup.Restarted(one), second, None, "t1").Failed?
  {
    var one := After(NO_ROWS, key, Submit(first, None, "t0"));
    SubmittedFirst(key, first, None, "t0");
    SecondFits(key, first, None, second, None);
    PendingFacts(one, key, Some(first.version));
    Startup.SubmissionAfterRestart(one, second, None, "t1");
  }

  lemma UniversalIsClosed()
    ensures var one := After(NO_ROWS, TOOL, Submit(SECOND, None, "t0"));
      Publish(one, FIRST, None, "t1").Done? && Publish(Startup.Restarted(one), FIRST, None, "t1").Failed?
  {
    PendingWord();
    FirstVersion();
    StartClosesUniversal(TOOL, SECOND, FIRST);
  }

  // --------------------------------------------------------- manifests lost

  /** Two publish calls for different platforms of a new version, both of which have read
      the store before either wrote to it. */
  ghost predicate Parallel(read: string -> Option<Adp.Document>, site: Site, one: Step, two: Step) {
    && ProperSite(site) && ReadsEmpty(read, site, one) && ReadsEmpty(read, site, two)
    && FirstSubmission(site.key, one.sent) && OtherPlatform(one.sent, two.sent)
    && one.sentAt == "t0" && two.sentAt == "t1"
  }

  ghost predicate ReadsEmpty(read: string -> Option<Adp.Document>, site: Site, step: Step) {
    step.Send? && step.readAt == 0 && ProperPiece(step.piece) && Brings(read, site, NO_ROWS, step)
  }

  lemma ParallelAreAccepted(read: string -> Option<Adp.Document>, site: Site, one: Step, two: Step)
    requires Parallel(read, site, one, two)
    ensures Apply(NO_ROWS, site.key, OpOf(one)).Done?
    ensures Apply(After(NO_ROWS, site.key, OpOf(one)), site.key, OpOf(two)).Done?
  {
    SubmittedFirst(site.key, one.sent, one.piece.file, "t0");
    SecondFits(site.key, one.sent, one.piece.file, two.sent, two.piece.file);
  }

  lemma FirstIsAccepted(read: string -> Option<Adp.Document>, site: Site, one: Step, two: Step)
    requires Parallel(read, site, one, two)
    ensures Apply(NO_ROWS, site.key, OpOf(one)).Done?
  {
    SubmittedFirst(site.key, one.sent, one.piece.file, "t0");
  }

  /** Both are accepted, and the version stores the manifest of the second as if the
      first had never been. */
  lemma ParallelSendsLoseOne(read: string -> Option<Adp.Document>, site: Site, one: Step, two: Step)
    requires Parallel(read, site, one, two)
    ensures Apply(NO_ROWS, site.key, OpOf(one)).Done?
    ensures Apply(After(NO_ROWS, site.key, OpOf(one)), site.key, OpOf(two)).Done?
    ensures StoredDoc(read, After(After(NO_ROWS, site.key, OpOf(one)), site.key, OpOf(two)), site.version)
      == Adp.Normalize(two.piece.doc, None, CallOf(site, two.piece).upload)
  {
    ParallelAreAccepted(read, site, one, two);
    var s1 := After(NO_ROWS, site.key, OpOf(one));
    SubmissionStores(s1, site.key, site.version, two.sent, two.piece.file, two.sentAt);
  }

  lemma ReadEmpty(read: string -> Option<Adp.Document>, site: Site, step: Step,
                  steps: seq<Step>, done: seq<bool>, states: seq<Tables>, i: nat)
    requires ReadsEmpty(read, site, step)
    requires |states| == |steps| + 1 && |done| == |steps| && i < |steps| && states[0] == NO_ROWS
    requires steps[i] == step && done[i]
    ensures Apply(states[i], site.key, OpOf(step)).Done? && states[i + 1] == After(states[i], site.key, OpOf(step))
      ==> HandledAt(read, site, steps, done, states, i)
  {
  }

  ghost predicate TwoSends(site: Site, one: Step, two: Step, steps: seq<Step>, done: seq<bool>, states: seq<Tables>) {
    && |steps| == |done| == 2 && |states| == 3 && states[0] == NO_ROWS
    && steps[0] == one && done[0] && states[1] == After(states[0], site.key, OpOf(one))
    && steps[1] == two && done[1] && states[2] == After(states[1], site.key, OpOf(two))
  }

  lemma FirstSteps(read: string -> Option<Adp.Document>, site: Site, one: Step, two: Step,
                  steps: seq<Step>, done: seq<bool>, states: seq<Tables>)
    requires ReadsEmpty(read, site, one) && Apply(NO_ROWS, site.key, OpOf(one)).Done?
    requires TwoSends(site, one, two, steps, done, states)
    ensures HandledAt(read, site, steps, done, states, 0)
  {
    ReadEmpty(read, site, one, steps, done, states, 0);
  }

  lemma SecondSteps(read: string -> Option<Adp.Document>, site: Site, one: Step, two: Step,
                   steps: seq<Step>, done: seq<bool>, states: seq<Tables>)
    requires Parallel(read, site, one, two) && TwoSends(site, one, two, steps, done, states)
    ensures HandledAt(read, site, steps, done, states, 1)
  {
    ParallelAreAccepted(read, site, one, two);
    ReadEmpty(read, site, two, steps, done, states, 1);
  }

  lemma TwoSteps(read: string -> Option<Adp.Document>, site: Site, steps: seq<Step>, done: seq<bool>,
                 states: seq<Tables>)
    requires |steps| == |done| == 2 && |states| == 3 && states[0] == NO_ROWS
    requires HandledAt(read, site, steps, done, states, 0) && HandledAt(read, site, steps, done, states, 1)
    ensures HandledRun(read, site, steps, done, states)
  {
  }

  const TOOLS := map["schema" := Adp.Str("0.1"), "name" := Adp.Str("tools")]
  const FD_DOC := Adp.Document(TOOLS, Some([Adp.Plain(Adp.Str("fd"))]))
  const RG_DOC := Adp.Document(TOOLS, Some([Adp.Plain(Adp.Str("rg"))]))
  const FD := Send(Piece(FD_DOC, None), FIRST.(adpYaml := "fd"), "t0", 0)
  const RG := Send(Piece(RG_DOC, None), SECOND.(adpYaml := "rg"), "t1", 0)
  const MARKET := Site("https://market", TOOL, "1.0.0")

  /** A parser that knows the texts of the two manifests. */
  function ReadTools(text: string): Option<Adp.Document> {
    if text == "fd" then Some(FD_DOC) else if text == "rg" then Some(RG_DOC) else None
  }

  lemma PlainIsValid(doc: Adp.Document, id: string)
    requires doc.fields == TOOLS && doc.packages == Some([Adp.Plain(Adp.Str(id))])
    requires TrimSpace(id) == id && '@' !in id && id != ""
    ensures Adp.Normalize(doc, None, None) == Some(doc) && Adp.PackageId(doc.packages.value[0]) == Some(id)
  {
    ToolsTop();
    UncutId(id);
    OnePackageIsValid(doc, doc.packages.value[0]);
  }

  lemma ToolsTop()
    ensures Adp.ValidTop(TOOLS)
  {
    TrimmedIsFixed("tools");
  }

  lemma UncutId(id: string)
    requires TrimSpace(id) == id && '@' !in id && id != ""
    ensures Adp.PackageId(Adp.Plain(Adp.Str(id))) == Some(id)
  {
    CutPrefix(id, "", '@');
  }

  /** A manifest without an artifact, sent while nothing is stored. */
  lemma SentFirst(read: string -> Option<Adp.Document>, site: Site, step: Step, text: string)
    requires step.Send? && step.piece.file.None? && Canonical(step.sent.version) == site.version
    requires step.sent.adpYaml == text && TrimSpace(text) == text != ""
    requires read(text) == Some(step.piece.doc) == Adp.Normalize(step.piece.doc, None, None)
    ensures Brings(read, site, NO_ROWS, step)
  {
  }

  lemma FdIsSent()
    ensures Brings(ReadTools, MARKET, NO_ROWS, FD)
  {
    FirstVersion();
    TrimmedIsFixed("fd");
    PlainIsValid(FD_DOC, "fd");
    SentFirst(ReadTools, MARKET, FD, "fd");
  }

  lemma RgIsSent()
    ensures Brings(ReadTools, MARKET, NO_ROWS, RG)
  {
    FirstVersion();
    TrimmedIsFixed("rg");
    PlainIsValid(RG_DOC, "rg");
    SentFirst(ReadTools, MARKET, RG, "rg");
  }

  lemma RgHasNoFd()
    ensures Adp.Normalize(RG_DOC, None, None) == Some(RG_DOC) && !Adp.Has(RG_DOC.packages.value, "fd")
  {
    TrimmedIsFixed("rg");
    PlainIsValid(RG_DOC, "rg");
  }

  lemma ToolsAreParallel()
    ensures Parallel(ReadTools, MARKET, FD, RG)
  {
    PendingWord();
    FirstVersion();
    FdIsSent();
    RgIsSent();
  }

  ghost const AFTER_FD := After(NO_ROWS, TOOL, OpOf(FD))
  ghost const AFTER_RG := After(AFTER_FD, TOOL, OpOf(RG))

  const CALLS := [FD, RG]
  const DONE := [true, true]
  ghost const STATES := [NO_ROWS, AFTER_FD, AFTER_RG]

  lemma ToolsAreSent()
    ensures TwoSends(MARKET, FD, RG, CALLS, DONE, STATES)
  {
  }

  lemma FdIsHandled()
    ensures HandledAt(ReadTools, MARKET, CALLS, DONE, STATES, 0)
  {
    ToolsAreParallel();
    FirstIsAccepted(ReadTools, MARKET, FD, RG);
    ToolsAreSent();
    FirstSteps(ReadTools, MARKET, FD, RG, CALLS, DONE, STATES);
  }

  lemma RgIsHandled()
    ensures HandledAt(ReadTools, MARKET, CALLS, DONE, STATES, 1)
  {
    ToolsAreParallel();
    ToolsAreSent();
    SecondSteps(ReadTools, MARKET, FD, RG, CALLS, DONE, STATES);
  }

  lemma ToolsRun()
    ensures HandledRun(ReadTools, MARKET, CALLS, DONE, STATES)
  {
    FdIsHandled();
    RgIsHandled();
    TwoSteps(ReadTools, MARKET, CALLS, DONE, STATES);
  }

  /** The package of the first call is gone. */
  lemma ParallelPlatformsLoseManifest()
    ensures HandledRun(ReadTools, MARKET, CALLS, DONE, STATES)
    ensures StoredDoc(ReadTools, STATES[2], MARKET.version) == Some(RG_DOC) && !Adp.Has(RG_DOC.packages.value, "fd")
  {
    ToolsRun();
    ToolsAreParallel();
    RgHasNoFd();
    ParallelSendsLoseOne(ReadTools, MARKET, FD, RG);
  }

  // ------------------------------------------------------------ owners joined

  lemma VisitGrows(visits: seq<Visit>, worlds: seq<World>, guests: set<string>, visit: Visit)
    requires VisitRun(visits, worlds, guests) && LegitVisit(worlds[|visits|], guests, visit)
    ensures Proper(worlds[|visits|].directory)
    ensures VisitRun(visits + [visit], worlds + [VisitAfter(worlds[|visits|], visit)], guests)
  {
    var n := |visits|;
    CreatorsAreKnown(visits, worlds, guests, n);
    var more, after := visits + [visit], worlds + [VisitAfter(worlds[n], visit)];
    forall i: nat | i <= n ensures Visited(more, after, guests, i) {
      assert after[i] == worlds[i];
      if i < n {
        assert Visited(visits, worlds, guests, i);
        assert more[i] == visits[i] && after[i + 1] == worlds[i + 1];
      }
    }
  }

  /** A first login that names no staff number, on an empty server. */
  predicate Newcomer(profile: Profile, draw: Draw) {
    && KeyOfProfile(profile).0 != "" && KeyOfProfile(profile).1 != ""
    && TrimSpace(profile.staffNumber) == "" && ProperId(draw.userId)
  }

  lemma NobodyIsProper()
    ensures Proper(NO_ACCOUNTS)
  {
  }

  lemma NewcomerIsAccepted(profile: Profile, draw: Draw)
    requires Newcomer(profile, draw)
    ensures Proper(NO_ACCOUNTS) && Upsert(NO_ACCOUNTS, profile, draw).Accepted?
    ensures Proper(Upsert(NO_ACCOUNTS, profile, draw).directory)
    ensures OneAccount(Upsert(NO_ACCOUNTS, profile, draw).directory, KeyOfProfile(profile), draw.userId)
  {
    NobodyIsProper();
    NewcomerIsRegistered(profile, draw);
    UpsertKeepsProper(NO_ACCOUNTS, profile, draw);
  }

  predicate OneAccount(d: Directory, key: (string, string), id: string) {
    d.users.Keys == {id} && d.identities.Keys == {key} && d.identities[key].userId == id
  }

  lemma NewcomerIsRegistered(profile: Profile, draw: Draw)
    requires Newcomer(profile, draw) && Proper(NO_ACCOUNTS)
    ensures Upsert(NO_ACCOUNTS, profile, draw).Accepted?
    ensures OneAccount(Upsert(NO_ACCOUNTS, profile, draw).directory, KeyOfProfile(profile), draw.userId)
  {
    assert !HasSpace(TrimSpace(profile.staffNumber));
    assert !IdentityIdUsed(map[], draw.identityId);
  }

  lemma StaffedIsMoved(d: Directory, profile: Profile, draw: Draw, id: string)
    requires Proper(d) && OneAccount(d, KeyOfProfile(profile), id)
    requires KeyOfProfile(profile).0 != "" && KeyOfProfile(profile).1 != ""
    requires TrimSpace(profile.staffNumber) != "" && TrimSpace(profile.staffNumber) != id
    ensures Upsert(d, profile, draw).Accepted? && Moves(d, profile) && AccountOf(d, profile) == id
  {
  }

  lemma FirstOwner(key: ItemKey, req: Request)
    requires FirstSubmission(key, req)
    ensures var next := After(NO_ROWS, key, Submit(req, None, "t0"));
      && Apply(NO_ROWS, key, Submit(req, None, "t0")) == Done(next)
      && next.item.Some? && next.item.value.creator == CreatorOf(req)
  {
    SubmittedFirst(key, req, None, "t0");
  }

  lemma FirstUse(w: World, guests: set<string>, key: ItemKey, req: Request)
    requires Proper(w.directory) && key !in w.db && FirstSubmission(key, req)
      && CreatorOf(req) in Owners(w.directory, guests)
    ensures LegitVisit(w, guests, Use(key, Submit(req, None, "t0")))
    ensures VisitAfter(w, Use(key, Submit(req, None, "t0"))).directory == w.directory
    ensures VisitAfter(w, Use(key, Submit(req, None, "t0"))).db
      == w.db[key := After(NO_ROWS, key, Submit(req, None, "t0"))]
    ensures OwnerOf(VisitAfter(w, Use(key, Submit(req, None, "t0"))).db, key) == Some(CreatorOf(req))
  {
    FirstOwner(key, req);
  }

  /** A run that goes on with the first submission of an item. */
  lemma SubmittedInRun(visits: seq<Visit>, worlds: seq<World>, guests: set<string>, key: ItemKey, req: Request)
    returns (more: seq<Visit>, after: seq<World>, next: World)
    requires VisitRun(visits, worlds, guests) && FirstSubmission(key, req)
    requires var w := worlds[|visits|]; key !in w.db && CreatorOf(req) in Owners(w.directory, guests)
    ensures VisitRun(more, after, guests)
    ensures more == visits + [Use(key, Submit(req, None, "t0"))] && after == worlds + [next] && after[|more|] == next
    ensures next.directory == worlds[|visits|].directory
    ensures forall k :: k in next.db <==> k == key || k in worlds[|visits|].db
    ensures OwnerOf(next.db, key) == Some(CreatorOf(req))
    ensures forall k :: k != key ==> OwnerOf(next.db, k) == OwnerOf(worlds[|visits|].db, k)
  {
    CreatorsAreKnown(visits, worlds, guests, |visits|);
    FirstUse(worlds[|visits|], guests, key, req);
    VisitGrows(visits, worlds, guests, Use(key, Submit(req, None, "t0")));
    next := VisitAfter(worlds[|visits|], Use(key, Submit(req, None, "t0")));
    more, after := visits + [Use(key, Submit(req, None, "t0"))], worlds + [next];
  }

  /** An account and a guest that each own an item, where the guest bears the staff number
      the account moves to when it logs in again. */
  predicate Namesakes(first: Request, guest: string, second: Request, profile: Profile, later: Profile, draw: Draw) {
    && Newcomer(profile, draw) && KeyOfProfile(later) == KeyOfProfile(profile)
    && CreatorOf(first) == guest == TrimSpace(later.staffNumber) && guest != ""
    && CreatorOf(second) == draw.userId && draw.userId != guest
  }

  lemma BothMove(w: World, profile: Profile, draw: Draw, k: ItemKey, l: ItemKey, id: string)
    requires Proper(w.directory) && OneAccount(w.directory, KeyOfProfile(profile), id)
    requires KeyOfProfile(profile).0 != "" && KeyOfProfile(profile).1 != ""
    requires TrimSpace(profile.staffNumber) != "" && TrimSpace(profile.staffNumber) != id
    requires OwnerOf(w.db, k) == Some(TrimSpace(profile.staffNumber)) && OwnerOf(w.db, l) == Some(id)
    ensures var next := VisitAfter(w, Login(profile, draw)).db;
      OwnerOf(next, k) == OwnerOf(next, l) == Some(TrimSpace(profile.staffNumber))
  {
    StaffedIsMoved(w.directory, profile, draw, id);
    OwnerAfterLogin(w, profile, draw, k);
    OwnerAfterLogin(w, profile, draw, l);
  }

  ghost const NOWHERE := World(NO_ACCOUNTS, map[])

  lemma NewcomerArrives(guests: set<string>, profile: Profile, draw: Draw)
    returns (visits: seq<Visit>, worlds: seq<World>, next: World)
    requires Newcomer(profile, draw)
    ensures VisitRun(visits, worlds, guests) && visits == [Login(profile, draw)] && worlds[1] == next
    ensures next.db == map[] && OneAccount(next.directory, KeyOfProfile(profile), draw.userId)
  {
    NewcomerIsAccepted(profile, draw);
    next := VisitAfter(NOWHERE, Login(profile, draw));
    VisitGrows([], [NOWHERE], guests, Login(profile, draw));
    visits, worlds := [] + [Login(profile, draw)], [NOWHERE] + [next];
  }

  lemma NamesakesBefore(k: ItemKey, first: Request, guest: string, l: ItemKey, second: Request, profile: Profile,
                        draw: Draw)
    returns (visits: seq<Visit>, worlds: seq<World>, last: World)
    requires k != l && FirstSubmission(k, first) && FirstSubmission(l, second)
    requires Newcomer(profile, draw) && CreatorOf(first) == guest && CreatorOf(second) == draw.userId
    ensures VisitRun(visits, worlds, {guest}) && |visits| == 3 && worlds[3] == last
    ensures visits[0] == Login(profile, draw) && visits[1] == Use(k, Submit(first, None, "t0"))
    ensures visits[2] == Use(l, Submit(second, None, "t0"))
    ensures OneAccount(last.directory, KeyOfProfile(profile), draw.userId)
    ensures OwnerOf(last.db, k) == Some(guest) && OwnerOf(last.db, l) == Some(draw.userId)
  {
    var one, w1, next := NewcomerArrives({guest}, profile, draw);
    var two, w2, third := SubmittedInRun(one, w1, {guest}, k, first);
    assert two == [Login(profile, draw), Use(k, Submit(first, None, "t0"))] && w2[2] == third;
    visits, worlds, last := SubmittedInRun(two, w2, {guest}, l, second);
  }

  /** A run that goes on with the login that moves its one account. */
  lemma MovedInRun(visits: seq<Visit>, worlds: seq<World>, guests: set<string>, profile: Profile, draw: Draw,
                   k: ItemKey, l: ItemKey, id: string)
    returns (more: seq<Visit>, after: seq<World>, next: World)
    requires VisitRun(visits, worlds, guests) && OneAccount(worlds[|visits|].directory, KeyOfProfile(profile), id)
    requires KeyOfProfile(profile).0 != "" && KeyOfProfile(profile).1 != "" && ProperId(draw.userId)
    requires TrimSpace(profile.staffNumber) != "" && TrimSpace(profile.staffNumber) != id
    requires OwnerOf(worlds[|visits|].db, k) == Some(TrimSpace(profile.staffNumber))
    requires OwnerOf(worlds[|visits|].db, l) == Some(id)
    ensures VisitRun(more, after, guests)
    ensures more == visits + [Login(profile, draw)] && after == worlds + [next]
    ensures after[|more|] == next && after[|visits|] == worlds[|visits|]
    ensures OwnerOf(next.db, k) == OwnerOf(next.db, l) == Some(TrimSpace(profile.staffNumber))
  {
    VisitGrows(visits, worlds, guests, Login(profile, draw));
    BothMove(worlds[|visits|], profile, draw, k, l, id);
    next := VisitAfter(worlds[|visits|], Login(profile, draw));
    more, after := visits + [Login(profile, draw)], worlds + [next];
  }

  /** When the account logs in with that number, its items and those of the guest become
      the items of one owner. */
  lemma GuestIsJoined(k: ItemKey, first: Request, guest: string, l: ItemKey, second: Request, profile: Profile,
                      later: Profile, draw: Draw)
    returns (visits: seq<Visit>, worlds: seq<World>)
    requires k != l && FirstSubmission(k, first) && FirstSubmission(l, second)
    requires Namesakes(first, guest, second, profile, later, draw)
    ensures VisitRun(visits, worlds, {guest}) && |visits| == 4
    ensures visits[0] == Login(profile, draw) && visits[3] == Login(later, draw)
    ensures visits[1] == Use(k, Submit(first, None, "t0")) && visits[2] == Use(l, Submit(second, None, "t0"))
    ensures OwnerOf(worlds[3].db, k) == Some(guest) && OwnerOf(worlds[3].db, l) == Some(draw.userId)
    ensures OwnerOf(worlds[4].db, k) == OwnerOf(worlds[4].db, l) == Some(guest)
  {
    var last;
    visits, worlds, last := NamesakesBefore(k, first, guest, l, second, profile, draw);
    visits, worlds, last := MovedInRun(visits, worlds, {guest}, later, draw, k, l, draw.userId);
  }

  const GUEST := "1001"
  const USER := "usr_a"
  const LIBRARY := ItemKey(CliTool, "library")
  const BY_GUEST := FIRST.(creatorId := GUEST)
  const BY_USER := FIRST.(id := "library", creatorId := USER)
  const WITHOUT_STAFF := Profile("sso", "ada", "ada", "", "", false, false, "", "", "", false)
  const WITH_STAFF := WITHOUT_STAFF.(staffNumber := GUEST)
  const DRAW := Draw(USER, "idt_a", "t0")

  lemma BothSubmit()
    ensures FirstSubmission(TOOL, BY_GUEST) && FirstSubmission(LIBRARY, BY_USER)
  {
    PendingWord();
    FirstVersion();
  }

  lemma BothNames()
    ensures TrimSpace(GUEST) == GUEST && TrimSpace(USER) == USER && ProperId(USER)
  {
    TrimmedIsFixed(GUEST);
    TrimmedIsFixed(USER);
  }

  lemma AdaIsNew()
    ensures Newcomer(WITHOUT_STAFF, DRAW)
  {
    BothNames();
    TrimmedIsFixed("sso");
    TrimmedIsFixed("ada");
    TrimmedIsFixed("");
  }

  lemma StaffNumberJoinsGuest() returns (visits: seq<Visit>, worlds: seq<World>)
    ensures VisitRun(visits, worlds, {GUEST}) && |visits| == 4
    ensures OwnerOf(worlds[3].db, TOOL) == Some(GUEST) && OwnerOf(worlds[3].db, LIBRARY) == Some(USER)
    ensures OwnerOf(worlds[4].db, TOOL) == OwnerOf(worlds[4].db, LIBRARY) == Some(GUEST)
  {
    BothSubmit();
    BothNames();
    AdaIsNew();
    visits, worlds := GuestIsJoined(TOOL, BY_GUEST, GUEST, LIBRARY, BY_USER, WITHOUT_STAFF, WITH_STAFF, DRAW);
  }

  // ---------------------------------------------------------- sort order zero

  const PACK := ItemKey(Skill, "pack")
  const ZERO_ORDER := Taxonomy(
    {}, Some(ProfileRow("package", "other", "productivity", "beginner", "", false)),
      map["notes" := IncludedRow(false, 0)])
  const LOADED := [IncludedSkill("notes", false, 0)]

  lemma ZeroOrderLoads()
    ensures Loads(ZERO_ORDER, [], LOADED) && !NoZeroOrder(ZERO_ORDER.included)
  {
    assert LOADED[0].id == "notes";
    assert "notes" in ZERO_ORDER.included;
  }

  /** A skill package whose row has the column's default order is restored with another. */
  lemma ZeroOrderIsRewritten(item: ItemRow)
    ensures Loads(ZERO_ORDER, [], LOADED)
    ensures TaxonomyOf(StoredRequest(PACK, item, ZERO_ORDER, [], LOADED, None)) != ZERO_ORDER
  {
    ZeroOrderLoads();
    StoredRequestRoundTrip(PACK, item, ZERO_ORDER, [], LOADED, None);
  }

  // ------------------------------------------------- shared provider mappings

  const JQ := Adp.Spec(map["jq" := Adp.Map(map["apt" := Adp.Str("jq")])], None, None, None, None)
  const JQ_DOC := Adp.Document(map["schema" := Adp.Str("0.1"), "name" := Adp.Str("jq")], Some([JQ]))

  lemma JqIsNoField()
    ensures "jq" !in Adp.PACKAGE_FIELDS && !Adp.Provider("jq") && !Adp.Extension("jq")
  {
    PlatformTextIsLower("jq");
  }

  /** A package whose one field is no known one is a provider mapping of that name. */
  lemma OneMapping(p: Adp.Package, name: string)
    requires p.Spec? && p.from.None? && p.sha256.None? && p.archive.None? && p.platforms.None?
    requires p.rest.Keys == {name} && name !in Adp.PACKAGE_FIELDS && !Adp.Provider(name) && !Adp.Extension(name)
    ensures Adp.ProviderMapping(p) && Adp.PackageId(p) == Some(name)
  {
    assert |p.rest| == |p.rest.Keys| == 1;
    assert "id" !in p.rest.Keys;
    TrimmedIsFixed("");
  }

  lemma JqIsMapping()
    ensures Adp.ProviderMapping(JQ) && Adp.PackageId(JQ) == Some("jq")
  {
    JqIsNoField();
    assert JQ.rest.Keys == {"jq"};
    OneMapping(JQ, "jq");
  }

  lemma JqTop()
    ensures Adp.ValidTop(JQ_DOC.fields)
  {
    TrimmedIsFixed("jq");
  }

  lemma AptIsProvider()
    ensures Adp.Provider("apt") && TrimSpace("jq") == "jq"
  {
    PlatformTextIsLower("apt");
    TrimmedIsFixed("jq");
  }

  lemma JqRest()
    ensures Adp.ValidMapping(JQ.rest)
  {
    AptIsProvider();
  }

  lemma JqPackage()
    ensures Adp.ValidPackage(JQ)
  {
    JqIsMapping();
    JqRest();
  }

  lemma JqNeeds()
    ensures Adp.NeedsMet(JQ, [JQ])
  {
    assert "needs" !in JQ.rest;
  }

  lemma OnePackageIsValid(doc: Adp.Document, p: Adp.Package)
    requires doc.packages == Some([p]) && Adp.ValidTop(doc.fields) && Adp.Keyed([p])
    requires Adp.ValidPackage(p) && Adp.NeedsMet(p, [p])
    ensures Adp.Valid(doc)
  {
  }

  lemma JqIsValid()
    ensures Adp.Valid(JQ_DOC)
  {
    JqTop();
    JqPackage();
    JqNeeds();
    JqKeyed();
    OnePackageIsValid(JQ_DOC, JQ);
  }

  lemma JqKeyed()
    ensures Adp.Keyed([JQ]) && Adp.AllNamed([JQ])
  {
    JqIsMapping();
  }

  lemma JqMeetsItself()
    ensures Adp.MergePackage(JQ, JQ).Some?
  {
  }

  lemma JqMerges()
    ensures Adp.Merge(JQ_DOC, JQ_DOC).Some?
  {
    JqIsMapping();
    JqKeyed();
    JqMeetsItself();
    AdpMerge.MergeAllShape([JQ], [JQ]);
    AdpMerge.IndexOfKeyed([JQ], 0);
    assert AdpMerge.Meets([JQ], JQ);
  }

  /** A valid manifest that merges with itself to an invalid one. */
  lemma SharedMappingIsRejected()
    ensures Adp.Valid(JQ_DOC) && Adp.Merge(JQ_DOC, JQ_DOC).Some? && !Adp.Valid(Adp.Merge(JQ_DOC, JQ_DOC).value)
  {
    JqIsMapping();
    JqIsValid();
    JqMerges();
    assert AdpMerge.MapsName(JQ_DOC.packages.value, "jq") by { assert JQ_DOC.packages.value[0] == JQ; }
    AdpMerge.MergePreservesValidity(JQ_DOC, JQ_DOC);
  }
}

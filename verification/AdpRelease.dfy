/** The manifest of a release inside the store. A publish call reads the manifest stored
    for its version, normalises its own against it, and later submits the result: two
    steps with anything in between. `read` stands for the YAML parser. */
module AdpRelease {
  import opened Text
  import opened SemVer
  import opened Market
  import opened Release
  import opened PublicView
  import opened Adp
  import opened AdpJoin
  import opened AdpUploads

  // ---------------------------------------------------------- publish calls

  /** Where the server is reached, and the version the calls are about. */
  datatype Site = Site(base: string, key: ItemKey, version: string)

  predicate ProperSite(site: Site) { site.version != "" && Canonical(site.version) == site.version }

  /** primaryRoutePath */
  function Route(itemType: ItemType): string {
    match itemType
    case CliTool => "cli-tools"
    case Skill => "skills"
    case Plugin => "plugins"
    case Agent => "agents"
    case SandboxImage => "sandbox-images"
    case Pet => "pets"
    case WebsiteApp => "webapps"
    case SoftwarePackage => "software-package"
  }

  function TrimSlashes(base: string): string {
    if base != "" && base[|base| - 1] == '/' then TrimSlashes(base[..|base| - 1]) else base
  }

  /** adpDownloadURL */
  function DownloadUrl(site: Site, platform: string): string {
    TrimSlashes(site.base) + "/api/v1/" + Route(site.key.itemType) + "/" + site.key.id
    + "/download?version=" + site.version + if platform == "" then "" else "&platform=" + platform
  }

  /** What a file contributes to the manifest it is bound into. */
  function UploadOf(site: Site, file: Artifact): Upload {
    Upload(file.role, PlatformKeysOf(file.platformKey), DownloadUrl(site, file.platformKey), file.sha256,
           file.archiveType)
  }

  /** A manifest as it was sent, and the file sent with it. */
  datatype Piece = Piece(doc: Document, file: Option<Artifact>)

  function CallOf(site: Site, piece: Piece): Call {
    Call(piece.doc, if piece.file.Some? then Some(UploadOf(site, piece.file.value)) else None)
  }

  function CallsOf(site: Site, pieces: seq<Piece>): (calls: seq<Call>)
    ensures |calls| == |pieces|
    ensures forall i :: 0 <= i < |pieces| ==> calls[i] == CallOf(site, pieces[i])
  {
    seq(|pieces|, i requires 0 <= i < |pieces| => CallOf(site, pieces[i]))
  }

  /** A submission with a manifest normalised against the rows of an earlier moment, one
      without a manifest, or anything else the item sees. A query that fails is ignored:
      that is reading the empty store, at moment 0. */
  datatype Step =
    | Send(piece: Piece, sent: Request, sentAt: string, readAt: nat)
    | Bare(bare: Request, file: Option<Artifact>, bareAt: string)
    | Other(op: Op)

  function OpOf(step: Step): Op {
    match step
    case Send(piece, req, now, _) => Submit(req, piece.file, now)
    case Bare(req, file, now) => Submit(req, file, now)
    case Other(op) => op
  }

  /** What the parser makes of the stored manifest, if there is one. */
  function StoredDoc(read: string -> Option<Document>, t: Tables, version: string): Option<Document> {
    var text := GetPublishADPYAML(t, version);
    if text.Some? then read(text.value) else None
  }

  /** The text is the manifest normalised against what these rows store, printed so that
      it reads back; a stored manifest that does not parse is an error. */
  ghost predicate Printed(read: string -> Option<Document>, t: Tables, version: string, call: Call, text: string) {
    && (GetPublishADPYAML(t, version).Some? ==> StoredDoc(read, t, version).Some?)
    && text != ""
    && Normalize(call.doc, StoredDoc(read, t, version), call.upload).Some?
    && read(text) == Normalize(call.doc, StoredDoc(read, t, version), call.upload)
  }

  /** Platform and role as the request handler spells them; it fills in a role when the
      caller names none. */
  predicate ProperFile(file: Artifact) { PlatformText(file.platformKey) && PlatformText(file.role) && file.role != "" }

  predicate ProperPiece(piece: Piece) { piece.file.Some? ==> ProperFile(piece.file.value) }

  /** What a step brings with it, given the rows it read. */
  ghost predicate Brings(read: string -> Option<Document>, site: Site, r: Tables, step: Step) {
    match step
    case Send(piece, req, _, _) =>
      Canonical(req.version) == site.version
        && Printed(read, r, site.version, CallOf(site, piece), TrimSpace(req.adpYaml))
    case Bare(req, _, _) => Canonical(req.version) == site.version && TrimSpace(req.adpYaml) == ""
    case Other(op) => op.Submit? ==> Canonical(op.req.version) != site.version
  }

  /** The moment whose rows the i-th step has read. */
  function ReadBy(step: Step, i: nat): (r: nat)
    ensures r <= i
  {
    if step.Send? && step.readAt <= i then step.readAt else i
  }

  /** How the i-th step treats the version. */
  ghost predicate Handled(read: string -> Option<Document>, site: Site, states: seq<Tables>, i: nat, step: Step)
    requires i < |states|
  {
    && (step.Send? ==> step.readAt <= i && ProperPiece(step.piece))
    && Brings(read, site, states[ReadBy(step, i)], step)
  }

  /** A run, with the outcome of each step. */
  ghost predicate HandledRun(read: string -> Option<Document>, site: Site, steps: seq<Step>, done: seq<bool>,
                             states: seq<Tables>)
  {
    && |states| == |steps| + 1 && |done| == |steps|
    && states[0] == NO_ROWS
    && forall i {:trigger HandledAt(read, site, steps, done, states, i)} :: 0 <= i < |steps| ==>
         HandledAt(read, site, steps, done, states, i)
  }

  ghost predicate HandledAt(read: string -> Option<Document>, site: Site, steps: seq<Step>, done: seq<bool>,
                           states: seq<Tables>, i: nat)
    requires i < |steps| == |done| && |states| == |steps| + 1
  {
    && Handled(read, site, states, i, steps[i])
    && done[i] == Apply(states[i], site.key, OpOf(steps[i])).Done?
    && states[i + 1] == After(states[i], site.key, OpOf(steps[i]))
  }

  /** The pieces after an accepted step, over those before it and those it had read. */
  function PiecesAfter(step: Step, before: seq<Piece>, base: seq<Piece>): seq<Piece> {
    match step
    case Send(piece, _, _, _) => base + [piece]
    case Bare(_, _, _) => []
    case Other(_) => before
  }

  /** The calls the manifest stored after n steps was made of: those its last submission
      had read, and that submission. */
  function PiecesAt(steps: seq<Step>, done: seq<bool>, n: nat): seq<Piece>
    requires n <= |steps| == |done|
    decreases n
  {
    if n == 0 then []
    else if !done[n - 1] then PiecesAt(steps, done, n - 1)
    else PiecesAfter(steps[n - 1], PiecesAt(steps, done, n - 1), PiecesAt(steps, done, ReadBy(steps[n - 1], n - 1)))
  }

  /** All accepted calls since the version was last submitted without a manifest. */
  function AllPieces(steps: seq<Step>, done: seq<bool>, n: nat): seq<Piece>
    requires n <= |steps| == |done|
  {
    if n == 0 then []
    else
      var before := AllPieces(steps, done, n - 1);
      if !done[n - 1] then before else PiecesAfter(steps[n - 1], before, before)
  }

  // ------------------------------------------------------------- one step

  /** The version stores what the pipeline makes of the calls, and nothing for none. */
  ghost predicate Records(read: string -> Option<Document>, t: Tables, version: string, calls: seq<Call>) {
    if calls == [] then GetPublishADPYAML(t, version).None?
    else GetPublishADPYAML(t, version).Some? && Pipeline(calls).Some? && StoredDoc(read, t, version) == Pipeline(calls)
  }

  lemma PipelineMore(calls: seq<Call>, call: Call)
    ensures calls == [] ==> Pipeline(calls + [call]) == Normalize(call.doc, None, call.upload)
    ensures calls != [] && Pipeline(calls).Some? ==>
      Pipeline(calls + [call]) == Normalize(call.doc, Pipeline(calls), call.upload)
  {
    assert (calls + [call])[..|calls|] == calls;
  }

  /** A submission stores its own manifest text. */
  lemma SubmissionStores(t: Tables, key: ItemKey, version: string, req: Request, file: Option<Artifact>, now: string)
    requires Canonical(req.version) == version && version != "" && Canonical(version) == version
    requires Apply(t, key, Submit(req, file, now)).Done?
    ensures GetPublishADPYAML(After(t, key, Submit(req, file, now)), version)
      == if TrimSpace(req.adpYaml) == "" then None else Some(TrimSpace(req.adpYaml))
  {
    var canonical := req.(version := version);
    assert After(t, key, Submit(req, file, now)) == Submitted(t, canonical, file, now);
    TrimmedIsFixed(TrimSpace(req.adpYaml));
  }

  /** Whatever else happens to the item leaves manifest and files of the version alone. */
  lemma OthersKeepManifest(t: Tables, key: ItemKey, version: string, op: Op)
    requires Canonical(version) == version && (op.Submit? ==> Canonical(op.req.version) != version)
    ensures GetPublishADPYAML(After(t, key, op), version) == GetPublishADPYAML(t, version)
  {
    if op.Submit? {
      if Apply(t, key, op).Done? {
        var canonical := op.req.(version := Canonical(op.req.version));
        assert After(t, key, op) == Submitted(t, canonical, op.artifact, op.now);
      }
    } else {
      OtherStepsFrame(t, key, op);
      assert version in t.versions <==> version in After(t, key, op).versions.Keys;
    }
  }

  /** After a submission printed against the rows r, the version holds the joint manifest
      of the calls recorded in the rows t it was written to, and of its own, if and only
      if normalising against t would have given the same. */
  lemma SendKeepsAllExactly(read: string -> Option<Document>, r: Tables, t: Tables, next: Tables, version: string,
                            calls: seq<Call>, call: Call, text: string)
    requires Printed(read, r, version, call, text) && Records(read, t, version, calls)
    requires GetPublishADPYAML(next, version) == Some(text)
    ensures Records(read, next, version, calls + [call])
      <==> Normalize(call.doc, StoredDoc(read, r, version), call.upload)
           == Normalize(call.doc, StoredDoc(read, t, version), call.upload)
  {
    PipelineMore(calls, call);
  }

  // ------------------------------------------------------------- whole runs

  lemma StepOf(read: string -> Option<Document>, site: Site, steps: seq<Step>, done: seq<bool>, states: seq<Tables>,
               i: nat)
    requires HandledRun(read, site, steps, done, states) && i < |steps|
    ensures Handled(read, site, states, i, steps[i])
    ensures done[i] == Apply(states[i], site.key, OpOf(steps[i])).Done?
    ensures states[i + 1] == After(states[i], site.key, OpOf(steps[i]))
  {
    assert HandledAt(read, site, steps, done, states, i);
  }

  lemma CallsMore(site: Site, pieces: seq<Piece>, piece: Piece)
    ensures CallsOf(site, pieces + [piece]) == CallsOf(site, pieces) + [CallOf(site, piece)]
  {
  }

  lemma SendRecords(read: string -> Option<Document>, site: Site, r: Tables, next: Tables, pieces: seq<Piece>,
                    piece: Piece, text: string)
    requires Printed(read, r, site.version, CallOf(site, piece), text)
    requires Records(read, r, site.version, CallsOf(site, pieces))
      && GetPublishADPYAML(next, site.version) == Some(text)
    ensures Records(read, next, site.version, CallsOf(site, pieces + [piece]))
  {
    CallsMore(site, pieces, piece);
    SendKeepsAllExactly(read, r, r, next, site.version, CallsOf(site, pieces), CallOf(site, piece), text);
  }

  lemma StepRecords(read: string -> Option<Document>, site: Site, r: Tables, t: Tables, step: Step,
                    before: seq<Piece>, base: seq<Piece>)
    requires ProperSite(site) && Brings(read, site, r, step) && Apply(t, site.key, OpOf(step)).Done?
    requires Records(read, t, site.version, CallsOf(site, before))
      && Records(read, r, site.version, CallsOf(site, base))
    ensures Records(read, After(t, site.key, OpOf(step)), site.version, CallsOf(site, PiecesAfter(step, before, base)))
  {
    match step
    case Send(piece, req, now, _) =>
      SubmissionStores(t, site.key, site.version, req, piece.file, now);
      SendRecords(read, site, r, After(t, site.key, OpOf(step)), base, piece, TrimSpace(req.adpYaml));
    case Bare(req, file, now) => SubmissionStores(t, site.key, site.version, req, file, now);
    case Other(op) => OthersKeepManifest(t, site.key, site.version, op);
  }

  ghost predicate RecordsAt(read: string -> Option<Document>, site: Site, steps: seq<Step>, done: seq<bool>,
                            states: seq<Tables>, n: nat)
    requires n <= |steps| == |done| < |states|
  {
    Records(read, states[n], site.version, CallsOf(site, PiecesAt(steps, done, n)))
  }

  lemma RunStepRecords(read: string -> Option<Document>, site: Site, steps: seq<Step>, done: seq<bool>,
                       states: seq<Tables>, i: nat)
    requires ProperSite(site) && HandledRun(read, site, steps, done, states) && i < |steps|
    requires RecordsAt(read, site, steps, done, states, i)
    requires RecordsAt(read, site, steps, done, states, ReadBy(steps[i], i))
    ensures RecordsAt(read, site, steps, done, states, i + 1)
  {
    var r := ReadBy(steps[i], i);
    StepOf(read, site, steps, done, states, i);
    if done[i] {
      StepRecords(read, site, states[r], states[i], steps[i], PiecesAt(steps, done, i), PiecesAt(steps, done, r));
    }
  }

  /** In every run, whatever happens between the reading and the writing of a manifest,
      a version holds the joint manifest of the calls its last submission was made of. */
  lemma {:induction false} VersionHoldsPipeline(read: string -> Option<Document>, site: Site, steps: seq<Step>,
                                                done: seq<bool>, states: seq<Tables>, n: nat)
    requires ProperSite(site) && HandledRun(read, site, steps, done, states) && n <= |steps|
    ensures RecordsAt(read, site, steps, done, states, n)
    decreases n
  {
    if n > 0 {
      VersionHoldsPipeline(read, site, steps, done, states, n - 1);
      VersionHoldsPipeline(read, site, steps, done, states, ReadBy(steps[n - 1], n - 1));
      RunStepRecords(read, site, steps, done, states, n - 1);
    }
  }

  /** An accepted submission of the version. */
  predicate Writes(steps: seq<Step>, done: seq<bool>, j: nat)
    requires j < |steps| == |done|
  {
    done[j] && !steps[j].Other?
  }

  /** No submission of the version is accepted between the reading and the writing of
      another one. */
  predicate Undisturbed(steps: seq<Step>, done: seq<bool>)
    requires |steps| == |done|
  {
    forall i, j :: 0 <= j < i < |steps| && steps[i].Send? && done[i] && steps[i].readAt <= j ==> !Writes(steps, done, j)
  }

  lemma {:induction false} PiecesKept(steps: seq<Step>, done: seq<bool>, r: nat, n: nat)
    requires r <= n <= |steps| == |done|
    requires forall j :: r <= j < n ==> !Writes(steps, done, j)
    ensures PiecesAt(steps, done, n) == PiecesAt(steps, done, r)
    decreases n
  {
    if r < n {
      assert !Writes(steps, done, n - 1);
      PiecesKept(steps, done, r, n - 1);
    }
  }

  /** In undisturbed runs the stored manifest is made of all accepted calls. */
  lemma {:induction false} UndisturbedKeepsAll(steps: seq<Step>, done: seq<bool>, n: nat)
    requires |steps| == |done| && Undisturbed(steps, done) && n <= |steps|
    ensures PiecesAt(steps, done, n) == AllPieces(steps, done, n)
  {
    if n > 0 {
      UndisturbedKeepsAll(steps, done, n - 1);
      if done[n - 1] && steps[n - 1].Send? {
        PiecesKept(steps, done, ReadBy(steps[n - 1], n - 1), n - 1);
      }
    }
  }

  /** Then the version holds the joint manifest of all accepted calls since it was last
      submitted without one. */
  lemma VersionHoldsAll(read: string -> Option<Document>, site: Site, steps: seq<Step>, done: seq<bool>,
                        states: seq<Tables>, n: nat)
    requires ProperSite(site) && HandledRun(read, site, steps, done, states) && Undisturbed(steps, done) && n <= |steps|
    ensures Records(read, states[n], site.version, CallsOf(site, AllPieces(steps, done, n)))
  {
    VersionHoldsPipeline(read, site, steps, done, states, n);
    UndisturbedKeepsAll(steps, done, n);
  }

  // ------------------------------------------------------- what is published

  /** Once the version is on the shelf, that manifest is what the public reads. */
  lemma PublicReadsStored(t: Tables, version: string)
    requires version != "" && Canonical(version) == version && ReadableVersion(t, version)
    ensures GetADPYAML(t, version) == GetPublishADPYAML(t, version)
  {
  }

  lemma FileIsUpload(site: Site, piece: Piece)
    requires piece.file.Some? && ProperPiece(piece)
    ensures HasArtifact(CallOf(site, piece))
  {
    forall key | key in PlatformKeysOf(piece.file.value.platformKey) ensures key != "" && TrimSpace(key) == key {
      PlatformKeysAreClean(piece.file.value.platformKey, key);
    }
  }

  lemma {:induction false} PiecesAreProper(read: string -> Option<Document>, site: Site, steps: seq<Step>,
                                           done: seq<bool>, states: seq<Tables>, n: nat)
    requires HandledRun(read, site, steps, done, states) && n <= |steps|
    ensures forall i :: 0 <= i < |PiecesAt(steps, done, n)| ==> ProperPiece(PiecesAt(steps, done, n)[i])
    decreases n
  {
    if n > 0 {
      PiecesAreProper(read, site, steps, done, states, n - 1);
      StepOf(read, site, steps, done, states, n - 1);
      if steps[n - 1].Send? {
        PiecesAreProper(read, site, steps, done, states, steps[n - 1].readAt);
      }
    }
  }

  // ------------------------------------------------------------ files served

  /** The store holds some piece's file for the platform of each piece's file. */
  ghost predicate Serves(t: Tables, version: string, pieces: seq<Piece>) {
    forall i :: 0 <= i < |pieces| && pieces[i].file.Some? ==>
      Serving(t, version, pieces, pieces[i].file.value.platformKey)
  }

  ghost predicate Serving(t: Tables, version: string, pieces: seq<Piece>, platform: string) {
    && (version, platform) in t.artifacts
    && t.artifacts[(version, platform)].artifact.platformKey == platform
    && exists j :: 0 <= j < |pieces| && pieces[j].file == Some(t.artifacts[(version, platform)].artifact)
  }

  lemma SubmissionServes(t: Tables, key: ItemKey, version: string, pieces: seq<Piece>, piece: Piece, req: Request,
                         now: string)
    requires Serves(t, version, pieces) && Canonical(req.version) == version && Canonical(version) == version
    requires Apply(t, key, Submit(req, piece.file, now)).Done?
    ensures Serves(After(t, key, Submit(req, piece.file, now)), version, pieces + [piece])
  {
    var next, all := After(t, key, Submit(req, piece.file, now)), pieces + [piece];
    assert next == Submitted(t, req.(version := version), piece.file, now);
    forall i | 0 <= i < |all| && all[i].file.Some? ensures Serving(next, version, all, all[i].file.value.platformKey) {
      ServingAfter(t, next, version, pieces, piece, now, all[i].file.value.platformKey);
    }
  }

  lemma ServingAfter(t: Tables, next: Tables, version: string, pieces: seq<Piece>, piece: Piece, now: string,
                     platform: string)
    requires next.artifacts == SubmittedArtifacts(t, version, piece.file, now)
    requires (piece.file.Some? && piece.file.value.platformKey == platform) || Serving(t, version, pieces, platform)
    ensures Serving(next, version, pieces + [piece], platform)
  {
    var all := pieces + [piece];
    if piece.file.Some? && piece.file.value.platformKey == platform {
      assert all[|pieces|].file == Some(next.artifacts[(version, platform)].artifact);
    } else {
      var j :| 0 <= j < |pieces| && pieces[j].file == Some(t.artifacts[(version, platform)].artifact);
      assert all[j].file == Some(next.artifacts[(version, platform)].artifact);
    }
  }

  lemma OthersServe(t: Tables, key: ItemKey, version: string, pieces: seq<Piece>, op: Op)
    requires Serves(t, version, pieces) && Canonical(version) == version
    requires op.Submit? ==> Canonical(op.req.version) != version
    ensures Serves(After(t, key, op), version, pieces)
  {
    OthersKeepFiles(t, key, version, op);
    forall i | 0 <= i < |pieces| && pieces[i].file.Some?
      ensures Serving(After(t, key, op), version, pieces, pieces[i].file.value.platformKey)
    {
      assert Serving(t, version, pieces, pieces[i].file.value.platformKey);
    }
  }

  lemma OthersKeepFiles(t: Tables, key: ItemKey, version: string, op: Op)
    requires op.Submit? ==> Canonical(op.req.version) != version
    ensures forall platform :: (version, platform) in t.artifacts ==>
      (version, platform) in After(t, key, op).artifacts
      && After(t, key, op).artifacts[(version, platform)] == t.artifacts[(version, platform)]
  {
    if op.Submit? {
      if Apply(t, key, op).Done? {
        var canonical := op.req.(version := Canonical(op.req.version));
        assert After(t, key, op) == Submitted(t, canonical, op.artifact, op.now);
      }
    } else {
      OtherStepsFrame(t, key, op);
    }
  }

  lemma {:induction false} RunServes(read: string -> Option<Document>, site: Site, steps: seq<Step>, done: seq<bool>,
                                     states: seq<Tables>, n: nat)
    requires ProperSite(site) && HandledRun(read, site, steps, done, states) && n <= |steps|
    ensures Serves(states[n], site.version, AllPieces(steps, done, n))
  {
    if n > 0 {
      var i := n - 1;
      RunServes(read, site, steps, done, states, i);
      StepOf(read, site, steps, done, states, i);
      if done[i] {
        var before := AllPieces(steps, done, i);
        match steps[i]
        case Send(piece, req, now, _) => SubmissionServes(states[i], site.key, site.version, before, piece, req, now);
        case Bare(_, _, _) =>
        case Other(op) => OthersServe(states[i], site.key, site.version, before, op);
      }
    }
  }
}

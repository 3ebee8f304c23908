/** The check before an upload against the checks of the transaction that stores it. */
module Admission {
  import opened Text
  import opened SemVer
  import opened Market
  import opened Release
  import opened Consistency
  import opened Effects

  /** normalizePublishPlatform: the key is the specification's own, else its
      platform name, else the request's, in sanitised spelling. */
  function NormalizedKey(key: string, platform: string, requested: string): string {
    CleanKey(ChosenKey(key, platform, requested))
  }

  function ChosenKey(key: string, platform: string, requested: string): string {
    var named := if TrimSpace(key) == "" then platform else key;
    if TrimSpace(named) == "" then requested else named
  }

  /** The specification's own key comes first, its platform name next, and what the request
      names last. */
  lemma ChosenKeyIs(key: string, platform: string, requested: string)
    ensures !Blank(key) ==> ChosenKey(key, platform, requested) == key
    ensures Blank(key) && !Blank(platform) ==> ChosenKey(key, platform, requested) == platform
    ensures Blank(key) && Blank(platform) ==> ChosenKey(key, platform, requested) == requested
  {
    BlankIsEmpty(key);
    BlankIsEmpty(platform);
  }

  predicate NormalizedPlatform(key: string) { key != "" && PlatformText(key) }

  lemma CleanKeyIsNormalized(chosen: string)
    ensures NormalizedPlatform(CleanKey(chosen))
  {
    if SanitizePlatform(chosen) == "" {
      UniversalIsPlatform();
    } else {
      SanitizePlatformNormalises(chosen);
    }
  }

  lemma UniversalIsPlatform()
    ensures PlatformText("universal")
  {
  }

  lemma KeyIsNormalized(key: string, platform: string, requested: string)
    ensures NormalizedPlatform(NormalizedKey(key, platform, requested))
  {
    CleanKeyIsNormalized(ChosenKey(key, platform, requested));
  }

  /** A platform that is named is spelled out, one that is not is the universal one; keys
      spelled so are kept. */
  lemma CleanKeyIsSpelled(spelled: string)
    ensures CleanKey(CleanKey(spelled)) == CleanKey(spelled) != ""
    ensures CleanKey(spelled) == if SanitizePlatform(spelled) == "" then "universal" else SanitizePlatform(spelled)
  {
    CleanKeyIsNormalized(spelled);
    SanitizePlatformNormalises(CleanKey(spelled));
  }

  /** The first of these that applies: a pending release is asked for last, and then only
      for its platforms. */
  ghost function PrecheckRefusal(t: Tables, version: string, platform: string, creator: string): Option<StoreError> {
    if t.item.Some? && Differ(t.item.value.creator, creator) then Some(PublishForbidden)
    else if NotNewer(t, version) then Some(VersionNotNewer)
    else if Waiting(t, version, creator) then Some(PendingReleaseExists)
    else if if SomethingPending(t) then (version, platform) in t.platforms
            else version in t.versions && t.versions[version].published then Some(PublishedVersionExists)
    else None
  }

  /** Why the pre-check refuses a request, in whatever spelling it names its platform. */
  lemma PrecheckRefusals(t: Tables, key: ItemKey, version: string, spelled: string, creator: string)
    requires Consistent(t, key)
    ensures var platform := if SanitizePlatform(spelled) == "" then "universal" else SanitizePlatform(spelled);
      ValidateRelease(t, version, spelled, creator)
      == PrecheckRefusal(t, Canonical(version), platform, TrimSpace(creator))
  {
    CleanKeyIsSpelled(spelled);
    ReleaseGuardRefuses(t, key, Canonical(version), CleanKey(spelled), TrimSpace(creator));
  }

  lemma ReleaseGuardRefuses(t: Tables, key: ItemKey, version: string, platform: string, creator: string)
    requires Consistent(t, key)
    ensures ReleaseGuard(t, version, platform, creator) == PrecheckRefusal(t, version, platform, creator)
  {
    WaitingBlocks(t, key, version, creator);
    OlderIsNotNewer(t, version);
  }

  /** On every consistent state the pre-check accepts a request, in whatever spelling its
      platform is named, exactly when the transaction accepts it with the platform spelled
      out, although the checks come in another order and a pending release ends the
      pre-check before its last test. */
  lemma PrecheckAgrees(t: Tables, key: ItemKey, req: Request, spelled: string, artifact: Option<Artifact>,
                       now: string)
    requires Consistent(t, key) && PlatformOf(req).key == CleanKey(spelled)
    ensures ValidateRelease(t, req.version, spelled, req.creatorId).None? <==> Publish(t, req, artifact, now).Done?
  {
    GuardsAgree(t, key, Canonical(req.version), PlatformOf(req).key, CreatorOf(req));
    PublishIs(t, req, artifact, now);
  }

  lemma PublishIs(t: Tables, req: Request, artifact: Option<Artifact>, now: string)
    ensures Publish(t, req, artifact, now).Done?
      <==> PublishGuard(t, Canonical(req.version), PlatformOf(req).key, CreatorOf(req)).None?
  {
  }

  lemma GuardsAgree(t: Tables, key: ItemKey, version: string, platform: string, creator: string)
    requires Consistent(t, key)
    ensures ReleaseGuard(t, version, platform, creator).None? <==> PublishGuard(t, version, platform, creator).None?
  {
    if PendingVersion(t).Some? {
      var pending := PendingVersion(t).value;
      PendingIsUnique(t, key, pending);
      assert RowConsistent(key, pending, t.versions[pending]);
      PendingGuardsAgree(t, pending, version, platform, creator);
    } else {
      IdleGuardsAgree(t, version, platform, creator);
    }
  }

  lemma IdleGuardsAgree(t: Tables, version: string, platform: string, creator: string)
    requires PendingVersion(t).None?
    ensures ReleaseGuard(t, version, platform, creator).None? <==> PublishGuard(t, version, platform, creator).None?
  {
  }

  lemma PendingGuardsAgree(t: Tables, pending: string, version: string, platform: string, creator: string)
    requires PendingVersion(t) == Some(pending) && Canonical(pending) == pending && !t.versions[pending].published
    ensures ReleaseGuard(t, version, platform, creator).None? <==> PublishGuard(t, version, platform, creator).None?
  {
  }
}

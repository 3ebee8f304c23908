/** What a login leaves in the account tables and what it is answered, said over the
    profile that logged in and the account it found. */
module Logins {
  import opened Text
  import opened Release
  import opened Accounts

  /** A claim is taken trimmed; a blank one leaves what was there. */
  predicate Claimed(claim: string, before: string, after: string) {
    if TrimSpace(claim) == "" then after == before else after == TrimSpace(claim)
  }

  // ----------------------------------------------------------------- usernames

  predicate Free(users: map<string, User>, name: string) {
    forall id :: id in users ==> Fold(users[id].username) != Fold(name)
  }

  /** The name a newcomer asks for: the preferred one, else the subject, else a common one. */
  function Asked(preferred: string, subject: string): string {
    if TrimSpace(preferred) != "" then TrimSpace(preferred)
    else if TrimSpace(subject) != "" then TrimSpace(subject)
    else "market-user"
  }

  function Nth(base: string, n: nat): string { if n == 0 then base else base + "-" + Itoa(n + 1) }

  ghost predicate Numbered(users: map<string, User>, base: string, name: string, n: nat) {
    name == Nth(base, n) && Free(users, name) && forall m :: 0 <= m < n ==> !Free(users, Nth(base, m))
  }

  lemma TakenIsNotFree(users: map<string, User>, name: string)
    ensures Fold(name) in Taken(users) <==> !Free(users, name)
  {
    forall id | id in users ensures Fold(users[id].username) in Taken(users) {}
  }

  lemma NextIsNumbered(users: map<string, User>, base: string) returns (n: nat)
    ensures Numbered(users, base, Candidate(base, NextSuffix(Taken(users), base, 0)), n)
  {
    n := NextSuffix(Taken(users), base, 0);
    TakenIsNotFree(users, Nth(base, n));
    forall m | 0 <= m < n ensures !Free(users, Nth(base, m)) {
      assert Fold(Candidate(base, m)) in Taken(users);
      TakenIsNotFree(users, Nth(base, m));
    }
  }

  /** Who asks for a name nobody has gets it; otherwise it is numbered from two upwards,
      and the first free number is taken. */
  lemma NameIsGiven(users: map<string, User>, preferred: string, subject: string) returns (n: nat)
    ensures Numbered(users, Asked(preferred, subject), NextUsername(users, preferred, subject), n)
    ensures Free(users, Asked(preferred, subject)) ==> n == 0
  {
    n := NextIsNumbered(users, Asked(preferred, subject));
  }

  // -------------------------------------------------------------------- logins

  /** The staff number is the identifier of whoever brings one. */
  predicate Identified(profile: Profile, otherwise: string, id: string) {
    if TrimSpace(profile.staffNumber) == "" then id == otherwise else id == TrimSpace(profile.staffNumber)
  }

  /** The identity of a login: issuer and subject. */
  predicate IdentityKey(profile: Profile, key: (string, string)) {
    key.0 == TrimSpace(profile.issuer) && key.1 == TrimSpace(profile.subject)
  }

  predicate Held(identities: map<(string, string), Identity>, id: string) {
    exists k | k in identities :: identities[k].id == id
  }

  predicate Spaced(s: string) { exists i :: 0 <= i < |s| && s[i] in {' ', '\t', '\r', '\n'} }

  /** The first of these that applies. */
  ghost function Refusal(d: Directory, profile: Profile, draw: Draw, key: (string, string)): Option<AccountError> {
    var staff := TrimSpace(profile.staffNumber);
    if key.0 == "" || key.1 == "" then Some(IdentityRequired)
    else if key in d.identities then
      if staff != "" && d.identities[key].userId != staff && staff in d.users then Some(StaffNumberTaken) else None
    else if Spaced(staff) then Some(StaffNumberHasSpace)
    else if (if staff == "" then draw.userId else staff) in d.users then Some(UserIdTaken)
    else if Held(d.identities, draw.identityId) then Some(IdentityIdTaken)
    else None
  }

  /** Why a login is refused. */
  lemma LoginRefusals(d: Directory, profile: Profile, draw: Draw, key: (string, string))
    requires Proper(d) && IdentityKey(profile, key)
    ensures match Refusal(d, profile, draw, key)
      case Some(error) => Upsert(d, profile, draw) == Upserted.Refused(error)
      case None => Upsert(d, profile, draw).Accepted?
  {
    if key.0 != "" && key.1 != "" {
      if key in d.identities {
        LaterRefusals(d, profile, key, draw.now);
      } else {
        FirstRefusals(d, profile, draw, key);
      }
    }
  }

  lemma FirstRefusals(d: Directory, profile: Profile, draw: Draw, key: (string, string))
    requires key !in d.identities && key.0 != "" && key.1 != ""
    ensures match Refusal(d, profile, draw, key)
      case Some(error) => Register(d, profile, key, draw) == Upserted.Refused(error)
      case None => Register(d, profile, key, draw).Accepted?
  {
    SpacesAreFound(TrimSpace(profile.staffNumber));
    UsedIsHeld(d.identities, draw.identityId);
  }

  lemma UsedIsHeld(identities: map<(string, string), Identity>, id: string)
    ensures IdentityIdUsed(identities, id) <==> Held(identities, id)
  {
  }

  lemma LaterRefusals(d: Directory, profile: Profile, key: (string, string), now: string)
    requires key in d.identities && d.identities[key].userId in d.users
    ensures var staff := TrimSpace(profile.staffNumber);
      if staff != "" && d.identities[key].userId != staff && staff in d.users
      then Refresh(d, profile, key, now) == Upserted.Refused(StaffNumberTaken)
      else Refresh(d, profile, key, now).Accepted?
  {
  }

  lemma SpacesAreFound(s: string)
    ensures HasSpace(s) <==> Spaced(s)
  {
    if i :| 0 <= i < |s| && s[i] in {' ', '\t', '\r', '\n'} {
      assert s[i] in s;
    }
  }

  /** A first login adds the account it is answered with: what the profile claims, the name
      given where it claims no display name, active from now on. Nobody else changes. */
  lemma FirstLoginWrites(d: Directory, profile: Profile, draw: Draw, key: (string, string))
    requires Proper(d) && IdentityKey(profile, key) && key !in d.identities && Upsert(d, profile, draw).Accepted?
    ensures var next, id := Upsert(d, profile, draw).directory, Upsert(d, profile, draw).userId;
      && Identified(profile, draw.userId, id) && id !in d.users && id in next.users
      && next.users == d.users[id := next.users[id]]
      && var user := next.users[id];
         && user.username == NextUsername(d.users, profile.username, key.1)
         && Claimed(profile.displayName, user.username, user.displayName)
         && user.email == TrimSpace(profile.email) && user.verified == profile.emailVerified && user.status == "active"
         && user.createdAt == user.updatedAt == user.lastLoginAt == draw.now
  {
  }

  lemma FirstLoginLinks(d: Directory, profile: Profile, draw: Draw, key: (string, string))
    requires Proper(d) && IdentityKey(profile, key) && key !in d.identities && Upsert(d, profile, draw).Accepted?
    ensures var next, id := Upsert(d, profile, draw).directory, Upsert(d, profile, draw).userId;
      && key in next.identities && next.identities == d.identities[key := next.identities[key]]
      && IdentityWritten(next.identities[key], profile, draw.identityId, id, draw.now, draw.now)
  {
  }

  predicate IdentityWritten(identity: Identity, profile: Profile, id: string, userId: string, linkedAt: string,
                            now: string)
  {
    && identity.id == id && identity.userId == userId && identity.linkedAt == linkedAt && identity.lastSeenAt == now
    && identity.providerAccount == TrimSpace(profile.providerAccount)
    && identity.externalUserId == TrimSpace(profile.externalUserId)
    && identity.staffNumber == TrimSpace(profile.staffNumber)
  }

  lemma LaterLoginIs(d: Directory, profile: Profile, draw: Draw, key: (string, string))
    returns (moved: Directory, id: string)
    requires Proper(d) && IdentityKey(profile, key) && key in d.identities && Upsert(d, profile, draw).Accepted?
    ensures d.identities[key].userId in d.users && Identified(profile, d.identities[key].userId, id)
    ensures AccountMoved(d, moved, key, id)
    ensures Upsert(d, profile, draw) == Accepted(Refreshed(moved, profile, key, id, draw.now), id)
  {
    moved := Moved(d, key, TrimSpace(profile.staffNumber));
    id := moved.identities[key].userId;
    AccountMoves(d, key, TrimSpace(profile.staffNumber));
  }

  /** The account and its identity bear the new identifier, all others are as they were. */
  ghost predicate AccountMoved(d: Directory, moved: Directory, key: (string, string), id: string) {
    && key in d.identities && d.identities[key].userId in d.users && id in moved.users
    && moved.users[id] == d.users[d.identities[key].userId]
    && (forall other :: other in moved.users <==>
          other == id || (other in d.users && other != d.identities[key].userId))
    && (forall other :: other in d.users && other != d.identities[key].userId ==> moved.users[other] == d.users[other])
    && moved.identities == d.identities[key := d.identities[key].(userId := id)]
  }

  lemma AccountMoves(d: Directory, key: (string, string), staff: string)
    requires Proper(d) && key in d.identities && (MovesTo(d, key, staff) ==> staff !in d.users)
    ensures AccountMoved(d, Moved(d, key, staff), key, Moved(d, key, staff).identities[key].userId)
  {
    if MovesTo(d, key, staff) {
      IdentitiesMoved(d, key, staff);
      UsersMoved(d, d.identities[key].userId, staff);
    }
  }

  lemma UsersMoved(d: Directory, account: string, id: string)
    requires account in d.users && id !in d.users
    ensures var users := Rekeyed(d, account, id).users;
      && id in users && users[id] == d.users[account]
      && (forall other :: other in users <==> other == id || (other in d.users && other != account))
      && forall other :: other in d.users && other != account ==> users[other] == d.users[other]
  {
  }

  lemma IdentitiesMoved(d: Directory, key: (string, string), staff: string)
    requires Proper(d) && key in d.identities
    ensures Rekeyed(d, d.identities[key].userId, staff).identities
      == d.identities[key := d.identities[key].(userId := staff)]
  {
  }

  /** A later login leaves its account with the claims that are not blank, and otherwise
      as it was: name, standing and age stay. It answers for the staff number, if any. */
  lemma LaterLoginWrites(d: Directory, profile: Profile, draw: Draw, key: (string, string))
    requires Proper(d) && IdentityKey(profile, key) && key in d.identities && Upsert(d, profile, draw).Accepted?
    ensures var next, id, account := Upsert(d, profile, draw).directory, Upsert(d, profile, draw).userId,
      d.identities[key].userId;
      && account in d.users && Identified(profile, account, id) && id in next.users
      && var before, user := d.users[account], next.users[id];
         && user.username == before.username && user.status == before.status && user.createdAt == before.createdAt
         && Claimed(profile.displayName, before.displayName, user.displayName)
         && Claimed(profile.email, before.email, user.email)
         && user.verified == (if profile.hasEmailVerified then profile.emailVerified else before.verified)
         && user.updatedAt == user.lastLoginAt == draw.now
  {
    var moved, id := LaterLoginIs(d, profile, draw, key);
  }

  /** No other account changes, and none is lost. */
  lemma LaterLoginSparesOthers(d: Directory, profile: Profile, draw: Draw, key: (string, string), other: string)
    requires Proper(d) && IdentityKey(profile, key) && key in d.identities && Upsert(d, profile, draw).Accepted?
    ensures var next, id, account := Upsert(d, profile, draw).directory, Upsert(d, profile, draw).userId,
      d.identities[key].userId;
      && (other in next.users <==> other == id || (other in d.users && other != account))
      && (other in d.users && other != account && other != id ==> next.users[other] == d.users[other])
  {
    var moved, id := LaterLoginIs(d, profile, draw, key);
  }

  /** Its identity goes along, and no other changes. */
  lemma LaterLoginKeepsIdentities(d: Directory, profile: Profile, draw: Draw, key: (string, string),
                                  other: (string, string))
    requires Proper(d) && IdentityKey(profile, key) && key in d.identities && Upsert(d, profile, draw).Accepted?
    ensures var next, id := Upsert(d, profile, draw).directory, Upsert(d, profile, draw).userId;
      && (other in next.identities <==> other in d.identities)
      && (other in d.identities && other != key ==> next.identities[other] == d.identities[other])
      && key in next.identities
      && IdentityWritten(next.identities[key], profile, d.identities[key].id, id, d.identities[key].linkedAt, draw.now)
  {
    var moved, id := LaterLoginIs(d, profile, draw, key);
  }

  /** Favorites go along with their account, and no other changes. */
  lemma FavoritesFollow(d: Directory, profile: Profile, draw: Draw, key: (string, string), favorite: Favorite)
    requires Proper(d) && ProperId(draw.userId) && IdentityKey(profile, key) && Upsert(d, profile, draw).Accepted?
    ensures var next, id := Upsert(d, profile, draw).directory, Upsert(d, profile, draw).userId;
      favorite in next.favorites <==>
        if key in d.identities && favorite.userId == id
        then favorite.(userId := d.identities[key].userId) in d.favorites
        else favorite in d.favorites && !(key in d.identities && favorite.userId == d.identities[key].userId)
  {
    if key in d.identities && MovesTo(d, key, TrimSpace(profile.staffNumber)) {
      FavoriteMoved(d, d.identities[key].userId, TrimSpace(profile.staffNumber), favorite);
    }
  }

  lemma FavoriteMoved(d: Directory, account: string, id: string, favorite: Favorite)
    requires Proper(d) && account in d.users && id !in d.users
    ensures favorite in Rekeyed(d, account, id).favorites <==>
      if favorite.userId == id then favorite.(userId := account) in d.favorites
      else favorite in d.favorites && favorite.userId != account
  {
    var before := favorite.(userId := if favorite.userId == id then account else favorite.userId);
    if before in d.favorites {
      assert before.(userId := Rename(before.userId, account, id)) in Rekeyed(d, account, id).favorites;
    }
  }

  lemma GrantMoved(d: Directory, account: string, id: string, grant: Grant)
    requires Proper(d) && account in d.users && id !in d.users
    ensures grant in Rekeyed(d, account, id).roles <==>
      if grant.userId == id then grant.(userId := account) in d.roles
      else grant in d.roles && grant.userId != account
  {
    var before := grant.(userId := if grant.userId == id then account else grant.userId);
    if before in d.roles {
      assert before.(userId := Rename(before.userId, account, id)) in Rekeyed(d, account, id).roles;
    }
  }

  lemma GrantRenewed(roles: set<Grant>, id: string, isAdmin: bool, now: string, grant: Grant)
    ensures grant in Grants(roles, id, isAdmin, now) <==>
      if grant.userId == id && grant.source == "oidc" then
        grant.grantedAt == now && (grant.role == "creator" || (isAdmin && grant.role == "admin"))
      else grant in roles
  {
  }

  /** The login renews its own grants; those of other sources go along with their account,
      and nobody else's change. */
  lemma GrantsFollow(d: Directory, profile: Profile, draw: Draw, key: (string, string), grant: Grant)
    requires Proper(d) && ProperId(draw.userId) && IdentityKey(profile, key) && Upsert(d, profile, draw).Accepted?
    ensures var next, id := Upsert(d, profile, draw).directory, Upsert(d, profile, draw).userId;
      grant in next.roles <==>
        if grant.userId == id && grant.source == "oidc" then
          grant.grantedAt == draw.now && (grant.role == "creator" || (profile.isAdmin && grant.role == "admin"))
        else if key in d.identities && grant.userId == id then grant.(userId := d.identities[key].userId) in d.roles
        else grant in d.roles && !(key in d.identities && grant.userId == d.identities[key].userId)
  {
    var id := Upsert(d, profile, draw).userId;
    if key in d.identities && MovesTo(d, key, TrimSpace(profile.staffNumber)) {
      GrantMoved(d, d.identities[key].userId, id, grant);
      GrantRenewed(Rekeyed(d, d.identities[key].userId, id).roles, id, profile.isAdmin, draw.now, grant);
    } else {
      GrantRenewed(d.roles, id, profile.isAdmin, draw.now, grant);
    }
  }

  // -------------------------------------------------------------- the answer

  /** Who logs in for the first time is answered with what the profile claims. */
  lemma FirstLoginAnswers(d: Directory, profile: Profile, draw: Draw, key: (string, string))
    requires Proper(d) && ProperId(draw.userId) && IdentityKey(profile, key) && key !in d.identities
    requires Upsert(d, profile, draw).Accepted?
    ensures var next, id := Upsert(d, profile, draw).directory, Upsert(d, profile, draw).userId;
      && FindUser(next, id).Some?
      && var user := FindUser(next, id).value;
         && user.id == id && Identified(profile, draw.userId, id)
         && (Free(d.users, Asked(profile.username, key.1)) ==> user.username == Asked(profile.username, key.1))
         && Claimed(profile.displayName, user.username, user.displayName)
         && user.email == TrimSpace(profile.email) && user.verified == profile.emailVerified && user.status == "active"
  {
    LoginIsAnswered(d, profile, draw);
    FirstLoginWrites(d, profile, draw, key);
    var n := NameIsGiven(d.users, profile.username, key.1);
    TrimmedIsFixed(Upsert(d, profile, draw).userId);
  }

  /** Who logs in again is answered with what the profile claims and otherwise with what
      reading the account would have answered before. */
  lemma LaterLoginAnswers(d: Directory, profile: Profile, draw: Draw, key: (string, string))
    requires Proper(d) && ProperId(draw.userId) && IdentityKey(profile, key) && key in d.identities
    requires Upsert(d, profile, draw).Accepted?
    ensures var next, id, account := Upsert(d, profile, draw).directory, Upsert(d, profile, draw).userId,
      d.identities[key].userId;
      && FindUser(d, account).Some? && FindUser(next, id).Some?
      && var before, user := FindUser(d, account).value, FindUser(next, id).value;
         && before.id == account && user.id == id && Identified(profile, account, id)
         && user.username == before.username && user.status == before.status
         && Claimed(profile.displayName, before.displayName, user.displayName)
         && Claimed(profile.email, before.email, user.email)
         && user.verified == (if profile.hasEmailVerified then profile.emailVerified else before.verified)
  {
    LoginIsAnswered(d, profile, draw);
    LaterLoginWrites(d, profile, draw, key);
    TrimmedIsFixed(Upsert(d, profile, draw).userId);
    TrimmedIsFixed(d.identities[key].userId);
  }
}

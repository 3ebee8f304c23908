/** Users, their OIDC identities and roles: UpsertOIDCUser with username allocation
    and the rekeying of an account to its staff number. */
module Accounts {
  import opened Text
  import opened Market
  import opened Release
  import opened Store

  datatype User = User(
    username: string, displayName: string, email: string, verified: bool, status: string,
    createdAt: string, updatedAt: string, lastLoginAt: string)

  datatype Identity = Identity(
    id: string, userId: string, providerAccount: string, externalUserId: string, staffNumber: string,
    linkedAt: string, lastSeenAt: string)

  /** A row of user_roles; the first three columns are its key. */
  datatype Grant = Grant(userId: string, role: string, source: string, grantedAt: string)

  /** A row of favorite_items; the first two columns are its key. */
  datatype Favorite = Favorite(item: ItemKey, userId: string, createdAt: string)

  datatype Profile = Profile(
    issuer: string, subject: string, username: string, displayName: string, email: string, emailVerified: bool,
    hasEmailVerified: bool, providerAccount: string, externalUserId: string, staffNumber: string, isAdmin: bool)

  /** What a login takes from outside: two random identifiers and the time. */
  datatype Draw = Draw(userId: string, identityId: string, now: string)

  datatype Directory = Directory(
    users: map<string, User>, identities: map<(string, string), Identity>, roles: set<Grant>, favorites: set<Favorite>)

  datatype AccountError = IdentityRequired | StaffNumberHasSpace | UserIdTaken | IdentityIdTaken | StaffNumberTaken

  datatype Upserted = Accepted(directory: Directory, userId: string) | Refused(error: AccountError)

  /** The answer to a login. */
  datatype MarketUser = MarketUser(
    id: string, username: string, displayName: string, email: string, verified: bool, status: string, role: string)

  // --------------------------------------------------------------- usernames

  function UsernameBase(preferred: string, fallback: string): string {
    var base := TrimSpace(preferred);
    var base := if base == "" then TrimSpace(fallback) else base;
    if base == "" then "market-user" else base
  }

  function Candidate(base: string, suffix: nat): string {
    if suffix == 0 then base else base + "-" + Itoa(suffix + 1)
  }

  /** The usernames taken, up to ASCII case. */
  function Taken(users: map<string, User>): set<string> {
    set id | id in users :: Fold(users[id].username)
  }

  ghost predicate AllTaken(taken: set<string>, base: string, n: nat) {
    forall m :: 0 <= m < n ==> Fold(Candidate(base, m)) in taken
  }

  lemma FoldConcat(a: string, b: string)
    ensures Fold(a + b) == Fold(a) + Fold(b)
  {
  }

  lemma FoldDigits(a: string)
    requires AllDigits(a)
    ensures Fold(a) == a
  {
    forall i | 0 <= i < |a| ensures Fold(a)[i] == a[i] {
      assert a[i] in a;
    }
  }

  /** Different suffixes give names different even up to case. */
  lemma CandidatesDiffer(base: string, m: nat, n: nat)
    requires m < n
    ensures Fold(Candidate(base, m)) != Fold(Candidate(base, n))
  {
    FoldConcat(base + "-", Itoa(n + 1));
    FoldDigits(Itoa(n + 1));
    if m > 0 {
      FoldConcat(base + "-", Itoa(m + 1));
      FoldDigits(Itoa(m + 1));
      var prefix := Fold(base + "-");
      assert Fold(Candidate(base, m))[|prefix|..] == Itoa(m + 1);
      assert Fold(Candidate(base, n))[|prefix|..] == Itoa(n + 1);
      assert Decimal(Itoa(m + 1)) != Decimal(Itoa(n + 1));
    }
  }

  function Probed(base: string, n: nat): set<string> {
    if n == 0 then {} else Probed(base, n - 1) + {Fold(Candidate(base, n - 1))}
  }

  lemma {:induction false} ProbedAgain(base: string, m: nat, n: nat)
    requires m <= n
    ensures Fold(Candidate(base, n)) !in Probed(base, m)
  {
    if m > 0 {
      ProbedAgain(base, m - 1, n);
      CandidatesDiffer(base, m - 1, n);
    }
  }

  lemma {:induction false} ProbedSize(base: string, n: nat)
    ensures |Probed(base, n)| == n
  {
    if n > 0 {
      ProbedSize(base, n - 1);
      ProbedAgain(base, n - 1, n - 1);
    }
  }

  lemma {:induction false} ProbedAreTaken(taken: set<string>, base: string, n: nat)
    requires AllTaken(taken, base, n)
    ensures Probed(base, n) <= taken
  {
    if n > 0 {
      ProbedAreTaken(taken, base, n - 1);
    }
  }

  lemma {:induction false} SubsetSize(small: set<string>, large: set<string>)
    requires small <= large
    ensures |small| <= |large|
  {
    if small != {} {
      var x :| x in small;
      SubsetSize(small - {x}, large - {x});
    }
  }

  /** Pigeonhole: n candidates all taken means n names taken. */
  lemma ProbesAreBounded(taken: set<string>, base: string, n: nat)
    requires AllTaken(taken, base, n)
    ensures n <= |taken|
  {
    ProbedSize(base, n);
    ProbedAreTaken(taken, base, n);
    SubsetSize(Probed(base, n), taken);
  }

  lemma {:induction false} TakenSize(users: map<string, User>)
    ensures |Taken(users)| <= |users|
    decreases |users|
  {
    if users != map[] {
      var id :| id in users;
      var rest := users - {id};
      assert |rest| == |users| - 1 by {
        assert rest.Keys == users.Keys - {id};
        assert |rest.Keys| == |rest| && |users.Keys| == |users|;
      }
      TakenSize(rest);
      assert Taken(users) == Taken(rest) + {Fold(users[id].username)} by {
        forall name | name in Taken(users) ensures name in Taken(rest) + {Fold(users[id].username)} {
          var other :| other in users && Fold(users[other].username) == name;
          assert other != id ==> other in rest;
        }
      }
    }
  }

  /** The first free suffix at or after n. */
  ghost function NextSuffix(taken: set<string>, base: string, n: nat): (suffix: nat)
    requires AllTaken(taken, base, n)
    ensures suffix >= n && AllTaken(taken, base, suffix) && Fold(Candidate(base, suffix)) !in taken
    ensures suffix <= |taken|
    decreases |taken| + 1 - n
  {
    ProbesAreBounded(taken, base, n);
    if Fold(Candidate(base, n)) in taken then
      ProbesAreBounded(taken, base, n + 1);
      NextSuffix(taken, base, n + 1)
    else n
  }

  ghost function NextUsername(users: map<string, User>, preferred: string, fallback: string): string {
    var base := UsernameBase(preferred, fallback);
    Candidate(base, NextSuffix(Taken(users), base, 0))
  }

  /** nextAvailableUsername: probes at most one candidate more than there are users. */
  method NextAvailableUsername(users: map<string, User>, preferred: string, fallback: string)
    returns (name: string, probes: nat)
    ensures name == NextUsername(users, preferred, fallback)
    ensures Fold(name) !in Taken(users)
    ensures probes <= |users| + 1
  {
    var base := UsernameBase(preferred, fallback);
    var suffix := 0;
    ghost var taken := Taken(users);
    name := base;
    probes := 0;
    TakenSize(users);
    while true
      invariant AllTaken(taken, base, suffix) && probes == suffix
      invariant NextSuffix(taken, base, 0) == NextSuffix(taken, base, suffix)
      decreases |taken| + 1 - suffix
    {
      ProbesAreBounded(taken, base, suffix);
      var candidate := base;
      if suffix > 0 {
        candidate := base + "-" + Itoa(suffix + 1);
      }
      probes := probes + 1;
      var found := exists id | id in users :: Fold(users[id].username) == Fold(candidate);
      if !found {
        return candidate, probes;
      }
      assert Fold(Candidate(base, suffix)) in taken;
      ProbesAreBounded(taken, base, suffix + 1);
      suffix := suffix + 1;
    }
  }

  // --------------------------------------------------------------- accounts

  ghost predicate UsernamesUnique(users: map<string, User>) {
    forall a, b :: a in users && b in users && Fold(users[a].username) == Fold(users[b].username) ==> a == b
  }

  /** Users and (issuer, subject) identities correspond one to one. */
  ghost predicate OneToOne(users: map<string, User>, identities: map<(string, string), Identity>) {
    && (forall k :: k in identities ==> identities[k].userId in users)
    && (forall k, l :: k in identities && l in identities && identities[k].userId == identities[l].userId ==> k == l)
    && (forall id :: id in users ==> HasIdentity(identities, id))
  }

  ghost predicate HasIdentity(identities: map<(string, string), Identity>, id: string) {
    exists k :: k in identities && identities[k].userId == id
  }

  ghost predicate IdentityIdsUnique(identities: map<(string, string), Identity>) {
    forall k, l :: k in identities && l in identities && identities[k].id == identities[l].id ==> k == l
  }

  predicate SameGrant(g: Grant, h: Grant) { g.userId == h.userId && g.role == h.role && g.source == h.source }

  /** The primary key of user_roles, and grants to existing users only. */
  ghost predicate GrantsProper(roles: set<Grant>, users: map<string, User>) {
    && (forall g :: g in roles ==> g.userId in users)
    && (forall g, h :: g in roles && h in roles && SameGrant(g, h) ==> g == h)
  }

  /** The primary key of favorite_items, and favorites of existing users only. */
  ghost predicate FavoritesProper(favorites: set<Favorite>, users: map<string, User>) {
    && (forall f :: f in favorites ==> f.userId in users)
    && (forall f, g :: f in favorites && g in favorites && f.item == g.item && f.userId == g.userId ==> f == g)
  }

  predicate ProperId(id: string) { id != "" && Trimmed(id) }

  ghost predicate Proper(d: Directory) {
    && (forall id :: id in d.users ==> ProperId(id))
    && UsernamesUnique(d.users)
    && OneToOne(d.users, d.identities)
    && IdentityIdsUnique(d.identities)
    && GrantsProper(d.roles, d.users)
    && FavoritesProper(d.favorites, d.users)
  }

  predicate HasSpace(s: string) { exists c | c in s :: c == '\r' || c == '\n' || c == '\t' || c == ' ' }

  function UserRow(profile: Profile, username: string, now: string): User {
    var displayName := TrimSpace(profile.displayName);
    User(username, if displayName == "" then username else displayName, TrimSpace(profile.email), profile.emailVerified,
         "active", now, now, now)
  }

  function IdentityRow(profile: Profile, id: string, userId: string, linkedAt: string, now: string): Identity {
    Identity(id, userId, TrimSpace(profile.providerAccount), TrimSpace(profile.externalUserId),
             TrimSpace(profile.staffNumber), linkedAt, now)
  }

  /** A claim that is missing keeps the stored value. */
  function Kept(claim: string, stored: string): string { if TrimSpace(claim) != "" then TrimSpace(claim) else stored }

  function RefreshedUser(user: User, profile: Profile, now: string): User {
    user.(displayName := Kept(profile.displayName, user.displayName),
          email := Kept(profile.email, user.email),
          verified := if profile.hasEmailVerified then profile.emailVerified else user.verified,
          updatedAt := now, lastLoginAt := now)
  }

  function Grants(roles: set<Grant>, userId: string, isAdmin: bool, now: string): set<Grant> {
    (set grant | grant in roles && !(grant.userId == userId && grant.source == "oidc"))
    + {Grant(userId, "creator", "oidc", now)}
    + if isAdmin then {Grant(userId, "admin", "oidc", now)} else {}
  }

  /** The statements of rekeyMarketUser on favorites, roles, identities and users. */
  function Rekeyed(d: Directory, oldId: string, newId: string): Directory
    requires oldId in d.users
  {
    Directory(
      (d.users - {oldId})[newId := d.users[oldId]],
      map k | k in d.identities :: d.identities[k].(userId := Rename(d.identities[k].userId, oldId, newId)),
      set grant | grant in d.roles :: grant.(userId := Rename(grant.userId, oldId, newId)),
      set favorite | favorite in d.favorites :: favorite.(userId := Rename(favorite.userId, oldId, newId)))
  }

  function NewUserId(profile: Profile, drawn: string): string {
    if TrimSpace(profile.staffNumber) != "" then TrimSpace(profile.staffNumber) else drawn
  }

  ghost predicate IdentityIdUsed(identities: map<(string, string), Identity>, id: string) {
    exists k :: k in identities && identities[k].id == id
  }

  ghost function Register(d: Directory, profile: Profile, key: (string, string), draw: Draw): Upserted {
    var id := NewUserId(profile, draw.userId);
    if HasSpace(TrimSpace(profile.staffNumber)) then Refused(StaffNumberHasSpace)
    else if id in d.users then Refused(UserIdTaken)
    else if IdentityIdUsed(d.identities, draw.identityId) then Refused(IdentityIdTaken)
    else
      var username := NextUsername(d.users, profile.username, key.1);
      Accepted(d.(users := d.users[id := UserRow(profile, username, draw.now)],
                  identities := d.identities[key := IdentityRow(profile, draw.identityId, id, draw.now, draw.now)],
                  roles := Grants(d.roles, id, profile.isAdmin, draw.now)), id)
  }

  /** The account an identity stands for moves to its staff number. */
  predicate MovesTo(d: Directory, key: (string, string), staff: string)
    requires key in d.identities
  {
    staff != "" && d.identities[key].userId != staff
  }

  function Moved(d: Directory, key: (string, string), staff: string): Directory
    requires key in d.identities && d.identities[key].userId in d.users
  {
    if MovesTo(d, key, staff) then Rekeyed(d, d.identities[key].userId, staff) else d
  }

  /** The updates of a login on the account it found. */
  function Refreshed(d: Directory, profile: Profile, key: (string, string), id: string, now: string): Directory
    requires key in d.identities && id in d.users
  {
    d.(users := d.users[id := RefreshedUser(d.users[id], profile, now)],
       identities := d.identities[
         key := IdentityRow(profile, d.identities[key].id, id, d.identities[key].linkedAt, now)],
       roles := Grants(d.roles, id, profile.isAdmin, now))
  }

  function Refresh(d: Directory, profile: Profile, key: (string, string), now: string): Upserted
    requires key in d.identities && d.identities[key].userId in d.users
  {
    var staff := TrimSpace(profile.staffNumber);
    if MovesTo(d, key, staff) && staff in d.users then Refused(StaffNumberTaken)
    else
      var moved := Moved(d, key, staff);
      var id := moved.identities[key].userId;
      Accepted(Refreshed(moved, profile, key, id, now), id)
  }

  function KeyOfProfile(profile: Profile): (string, string) { (TrimSpace(profile.issuer), TrimSpace(profile.subject)) }

  /** The transaction of UpsertOIDCUser on the directory. */
  ghost function Upsert(d: Directory, profile: Profile, draw: Draw): Upserted
    requires Proper(d)
  {
    var key := KeyOfProfile(profile);
    if key.0 == "" || key.1 == "" then Refused(IdentityRequired)
    else if key !in d.identities then Register(d, profile, key, draw)
    else Refresh(d, profile, key, draw.now)
  }

  predicate IsAdmin(roles: set<Grant>, id: string) {
    exists grant | grant in roles :: grant.userId == id && grant.role == "admin"
  }

  /** GetMarketUser */
  function FindUser(d: Directory, userId: string): Option<MarketUser> {
    var id := TrimSpace(userId);
    if id !in d.users then None
    else
      var user := d.users[id];
      Some(MarketUser(id, user.username, user.displayName, user.email, user.verified, user.status,
                      if IsAdmin(d.roles, id) then "admin" else "creator"))
  }

  // ------------------------------------------------------------ preservation

  lemma NewNameIsUnique(users: map<string, User>, id: string, user: User)
    requires UsernamesUnique(users) && Fold(user.username) !in Taken(users)
    ensures UsernamesUnique(users[id := user])
  {
    forall other | other in users ensures Fold(users[other].username) in Taken(users) {}
  }

  lemma NewIdentityPairs(users: map<string, User>, identities: map<(string, string), Identity>,
                         id: string, user: User, key: (string, string), identity: Identity)
    requires OneToOne(users, identities) && id !in users && key !in identities && identity.userId == id
    ensures OneToOne(users[id := user], identities[key := identity])
  {
    var people, all := users[id := user], identities[key := identity];
    forall other | other in people ensures HasIdentity(all, other) {
      if other == id {
        assert all[key].userId == id;
      } else {
        assert HasIdentity(identities, other);
        var k :| k in identities && identities[k].userId == other;
        assert all[k].userId == other;
      }
    }
  }

  lemma NextUsernameIsFree(users: map<string, User>, preferred: string, fallback: string)
    ensures Fold(NextUsername(users, preferred, fallback)) !in Taken(users)
  {
    var suffix := NextSuffix(Taken(users), UsernameBase(preferred, fallback), 0);
  }

  /** Replacing one user's grants keeps the key of the table. */
  lemma GrantsKept(roles: set<Grant>, users: map<string, User>, next: map<string, User>, id: string, isAdmin: bool,
                   now: string)
    requires GrantsProper(roles, users) && users.Keys <= next.Keys && id in next
    ensures GrantsProper(Grants(roles, id, isAdmin, now), next)
  {
    forall g | g in Grants(roles, id, isAdmin, now) ensures g.userId in next {
      assert g in roles ==> g.userId in users.Keys;
    }
  }

  lemma FavoritesKept(favorites: set<Favorite>, users: map<string, User>, next: map<string, User>)
    requires FavoritesProper(favorites, users) && users.Keys <= next.Keys
    ensures FavoritesProper(favorites, next)
  {
    forall f | f in favorites ensures f.userId in next { assert f.userId in users.Keys; }
  }

  lemma NewUserIdIsProper(profile: Profile, drawn: string)
    requires ProperId(drawn)
    ensures ProperId(NewUserId(profile, drawn))
  {
  }

  lemma RegisterKeepsProper(d: Directory, profile: Profile, key: (string, string), draw: Draw)
    requires Proper(d) && ProperId(draw.userId) && key !in d.identities && Register(d, profile, key, draw).Accepted?
    ensures Proper(Register(d, profile, key, draw).directory)
    ensures |Register(d, profile, key, draw).directory.users| == |d.users| + 1
  {
    var id, username := NewUserId(profile, draw.userId), NextUsername(d.users, profile.username, key.1);
    var user := UserRow(profile, username, draw.now);
    var identity := IdentityRow(profile, draw.identityId, id, draw.now, draw.now);
    NewUserIdIsProper(profile, draw.userId);
    NextUsernameIsFree(d.users, profile.username, key.1);
    NewNameIsUnique(d.users, id, user);
    NewIdentityPairs(d.users, d.identities, id, user, key, identity);
    NewIdentityIdIsUnique(d.identities, key, identity);
    GrantsKept(d.roles, d.users, d.users[id := user], id, profile.isAdmin, draw.now);
    FavoritesKept(d.favorites, d.users, d.users[id := user]);
  }

  lemma NewIdentityIdIsUnique(identities: map<(string, string), Identity>, key: (string, string), identity: Identity)
    requires IdentityIdsUnique(identities) && !IdentityIdUsed(identities, identity.id)
    ensures IdentityIdsUnique(identities[key := identity])
  {
  }

  lemma RenamedUsers(users: map<string, User>, oldId: string, newId: string)
    requires UsernamesUnique(users) && oldId in users && newId !in users
    ensures UsernamesUnique((users - {oldId})[newId := users[oldId]])
    ensures |(users - {oldId})[newId := users[oldId]]| == |users|
  {
    var next := (users - {oldId})[newId := users[oldId]];
    assert next.Keys == users.Keys - {oldId} + {newId};
    assert |next| == |next.Keys| && |users| == |users.Keys|;
  }

  lemma RenamedPairs(d: Directory, oldId: string, newId: string)
    requires OneToOne(d.users, d.identities) && oldId in d.users && newId !in d.users
    ensures var next := Rekeyed(d, oldId, newId); OneToOne(next.users, next.identities)
  {
    var next := Rekeyed(d, oldId, newId);
    forall other | other in next.users ensures HasIdentity(next.identities, other) {
      var before := if other == newId then oldId else other;
      assert HasIdentity(d.identities, before);
      var k :| k in d.identities && d.identities[k].userId == before;
      assert next.identities[k].userId == other;
    }
    forall k, l | k in next.identities && l in next.identities && next.identities[k].userId == next.identities[l].userId
      ensures k == l
    {
      assert d.identities[k].userId in d.users && d.identities[l].userId in d.users;
    }
  }

  /** No two grants, and no two favorites, fall together when a user gets a new name. */
  lemma RenamedGrants(roles: set<Grant>, users: map<string, User>, next: map<string, User>, oldId: string,
                      newId: string)
    requires GrantsProper(roles, users) && newId !in users && next.Keys == users.Keys - {oldId} + {newId}
    ensures GrantsProper(set grant | grant in roles :: grant.(userId := Rename(grant.userId, oldId, newId)), next)
  {
    var renamed := set grant | grant in roles :: grant.(userId := Rename(grant.userId, oldId, newId));
    forall g | g in renamed ensures g.userId in next.Keys {
      var before :| before in roles && g == before.(userId := Rename(before.userId, oldId, newId));
      assert before.userId in users.Keys;
    }
    forall g, h | g in renamed && h in renamed && g.userId == h.userId && g.role == h.role && g.source == h.source
      ensures g == h
    {
      var a :| a in roles && g == a.(userId := Rename(a.userId, oldId, newId));
      var b :| b in roles && h == b.(userId := Rename(b.userId, oldId, newId));
      assert a.userId in users && b.userId in users;
      assert a == b;
    }
  }

  lemma RenamedFavorites(favorites: set<Favorite>, users: map<string, User>, next: map<string, User>, oldId: string,
                         newId: string)
    requires FavoritesProper(favorites, users) && newId !in users && next.Keys == users.Keys - {oldId} + {newId}
    ensures FavoritesProper(
      set favorite | favorite in favorites :: favorite.(userId := Rename(favorite.userId, oldId, newId)), next)
  {
    var renamed := set favorite | favorite in favorites :: favorite.(userId := Rename(favorite.userId, oldId, newId));
    forall f | f in renamed ensures f.userId in next.Keys {
      var before :| before in favorites && f == before.(userId := Rename(before.userId, oldId, newId));
      assert before.userId in users.Keys;
    }
    forall f, g | f in renamed && g in renamed && f.item == g.item && f.userId == g.userId ensures f == g {
      var a :| a in favorites && f == a.(userId := Rename(a.userId, oldId, newId));
      var b :| b in favorites && g == b.(userId := Rename(b.userId, oldId, newId));
      assert a.userId in users && b.userId in users;
      assert a == b;
    }
  }

  lemma RenamedKeys(users: map<string, User>, oldId: string, newId: string)
    requires oldId in users && newId !in users && ProperId(newId) && forall id :: id in users ==> ProperId(id)
    ensures var next := (users - {oldId})[newId := users[oldId]];
      next.Keys == users.Keys - {oldId} + {newId} && forall id :: id in next ==> ProperId(id)
  {
  }

  lemma RenamedIds(d: Directory, oldId: string, newId: string)
    requires IdentityIdsUnique(d.identities) && oldId in d.users
    ensures IdentityIdsUnique(Rekeyed(d, oldId, newId).identities)
  {
  }

  lemma RekeyedIsProper(d: Directory, oldId: string, newId: string)
    requires Proper(d) && oldId in d.users && newId !in d.users && ProperId(newId)
    ensures Proper(Rekeyed(d, oldId, newId))
    ensures |Rekeyed(d, oldId, newId).users| == |d.users|
  {
    var next := Rekeyed(d, oldId, newId).users;
    RenamedKeys(d.users, oldId, newId);
    RenamedUsers(d.users, oldId, newId);
    RenamedPairs(d, oldId, newId);
    RenamedIds(d, oldId, newId);
    RenamedGrants(d.roles, d.users, next, oldId, newId);
    RenamedFavorites(d.favorites, d.users, next, oldId, newId);
  }

  lemma SameUserPairs(users: map<string, User>, identities: map<(string, string), Identity>, id: string, user: User,
                      key: (string, string), identity: Identity)
    requires OneToOne(users, identities) && id in users && key in identities
      && identities[key].userId == id == identity.userId
    ensures OneToOne(users[id := user], identities[key := identity])
  {
    var all := identities[key := identity];
    forall other | other in users[id := user] ensures HasIdentity(all, other) {
      assert HasIdentity(identities, other);
      var k :| k in identities && identities[k].userId == other;
      assert all[k].userId == other;
    }
  }

  lemma RefreshedIsProper(d: Directory, profile: Profile, key: (string, string), id: string, now: string)
    requires Proper(d) && key in d.identities && d.identities[key].userId == id
    ensures Proper(Refreshed(d, profile, key, id, now))
  {
    var user := RefreshedUser(d.users[id], profile, now);
    var identity := IdentityRow(profile, d.identities[key].id, id, d.identities[key].linkedAt, now);
    SameUserPairs(d.users, d.identities, id, user, key, identity);
    GrantsKept(d.roles, d.users, d.users[id := user], id, profile.isAdmin, now);
    FavoritesKept(d.favorites, d.users, d.users[id := user]);
  }

  /** Logging in keeps usernames unique up to case, users in one-to-one correspondence
      with identities, and roles and favorites under their keys, across first logins and
      rekeying; the user answered is the one the identity stands for. */
  lemma UpsertKeepsProper(d: Directory, profile: Profile, draw: Draw)
    requires Proper(d) && ProperId(draw.userId) && Upsert(d, profile, draw).Accepted?
    ensures var next := Upsert(d, profile, draw).directory;
      var id := Upsert(d, profile, draw).userId;
      var key := KeyOfProfile(profile);
      && Proper(next)
      && key in next.identities && next.identities[key].userId == id
      && (TrimSpace(profile.staffNumber) != "" ==> id == TrimSpace(profile.staffNumber))
      && |next.users| == |d.users| + if key in d.identities then 0 else 1
  {
    var key := KeyOfProfile(profile);
    if key !in d.identities {
      RegisterKeepsProper(d, profile, key, draw);
    } else {
      RefreshKeepsProper(d, profile, key, draw.now);
    }
  }

  lemma RefreshKeepsProper(d: Directory, profile: Profile, key: (string, string), now: string)
    requires Proper(d) && key in d.identities && Refresh(d, profile, key, now).Accepted?
    ensures var next, id := Refresh(d, profile, key, now).directory, Refresh(d, profile, key, now).userId;
      && Proper(next) && |next.users| == |d.users|
      && key in next.identities && next.identities[key].userId == id
      && (TrimSpace(profile.staffNumber) != "" ==> id == TrimSpace(profile.staffNumber))
  {
    var staff := TrimSpace(profile.staffNumber);
    var moved := Moved(d, key, staff);
    if MovesTo(d, key, staff) {
      RekeyedIsProper(d, d.identities[key].userId, staff);
    }
    RefreshedIsProper(moved, profile, key, moved.identities[key].userId, now);
  }

  /** An administrator by a grant of another source. */
  predicate GrantedElsewhere(roles: set<Grant>, id: string) {
    exists g | g in roles :: g.userId == id && g.role == "admin" && g.source != "oidc"
  }

  /** A login is answered with its own account, as an administrator exactly when the
      profile says so or a role from another source does. */
  lemma LoginIsAnswered(d: Directory, profile: Profile, draw: Draw)
    requires Proper(d) && ProperId(draw.userId) && Upsert(d, profile, draw).Accepted?
    ensures var next, id := Upsert(d, profile, draw).directory, Upsert(d, profile, draw).userId;
      && FindUser(next, id).Some? && FindUser(next, id).value.id == id
      && (FindUser(next, id).value.role == "admin"
          <==> profile.isAdmin || GrantedElsewhere(next.roles, id))
  {
    UpsertKeepsProper(d, profile, draw);
    var next, id := Upsert(d, profile, draw).directory, Upsert(d, profile, draw).userId;
    TrimmedIsFixed(id);
    var roles := UpsertGrants(d, profile, draw);
    GrantsAreJust(roles, id, profile.isAdmin, draw.now);
    AdminAfterGrants(next.roles, id, profile.isAdmin, draw.now);
  }

  lemma UpsertGrants(d: Directory, profile: Profile, draw: Draw) returns (roles: set<Grant>)
    requires Proper(d) && Upsert(d, profile, draw).Accepted?
    ensures Upsert(d, profile, draw).directory.roles
      == Grants(roles, Upsert(d, profile, draw).userId, profile.isAdmin, draw.now)
  {
    var key := KeyOfProfile(profile);
    roles := if key in d.identities then Moved(d, key, TrimSpace(profile.staffNumber)).roles else d.roles;
  }

  lemma GrantsAreJust(roles: set<Grant>, id: string, isAdmin: bool, now: string)
    ensures JustGranted(Grants(roles, id, isAdmin, now), id, isAdmin, now)
  {
  }

  ghost predicate JustGranted(roles: set<Grant>, id: string, isAdmin: bool, now: string) {
    && (isAdmin ==> Grant(id, "admin", "oidc", now) in roles)
    && (forall g :: g in roles && g.userId == id && g.source == "oidc" ==>
          g == Grant(id, "creator", "oidc", now) || (isAdmin && g == Grant(id, "admin", "oidc", now)))
  }

  lemma AdminAfterGrants(roles: set<Grant>, id: string, isAdmin: bool, now: string)
    requires JustGranted(roles, id, isAdmin, now)
    ensures IsAdmin(roles, id)
      <==> isAdmin || GrantedElsewhere(roles, id)
  {
  }

  /** The items a login leaves behind: renamed exactly when the account moves. */
  function MovedItems(db: map<ItemKey, Tables>, d: Directory, profile: Profile): map<ItemKey, Tables> {
    var key, staff := KeyOfProfile(profile), TrimSpace(profile.staffNumber);
    if key in d.identities && MovesTo(d, key, staff) then Renamed(db, d.identities[key].userId, staff) else db
  }

  // ---------------------------------------------------------------- the server

  /** The account tables beside the release store they share a database with. */
  class AccountStore {
    const store: MarketStore
    var users: map<string, User>
    var identities: map<(string, string), Identity>
    var roles: set<Grant>
    var favorites: set<Favorite>

    function Rows(): Directory
      reads this
    {
      Directory(users, identities, roles, favorites)
    }

    constructor (store: MarketStore)
      ensures this.store == store && Proper(Rows()) && users == map[]
    {
      this.store := store;
      users, identities, roles, favorites := map[], map[], {}, {};
    }

    /** The account statements of rekeyMarketUser. */
    method RekeyAccount(oldId: string, newId: string)
      requires oldId in users
      modifies this
      ensures Rows() == Rekeyed(old(Rows()), oldId, newId)
    {
      favorites := set favorite | favorite in favorites :: favorite.(userId := Rename(favorite.userId, oldId, newId));
      roles := set grant | grant in roles :: grant.(userId := Rename(grant.userId, oldId, newId));
      identities := map k | k in identities :: identities[k].(userId := Rename(identities[k].userId, oldId, newId));
      users := (users - {oldId})[newId := users[oldId]];
    }

    /** rekeyMarketUser: the owner of items and versions is renamed with the account. */
    method Rekey(oldId: string, newId: string) returns (error: Option<AccountError>)
      requires store.Valid() && oldId in users
      modifies this, store
      ensures store.Valid()
      ensures newId in old(users) ==>
        error == Some(StaffNumberTaken) && Rows() == old(Rows()) && store.db == old(store.db)
      ensures newId !in old(users) ==>
        && error.None?
        && Rows() == Rekeyed(old(Rows()), oldId, newId)
        && store.db == Renamed(old(store.db), oldId, newId)
    {
      if newId in users {
        return Some(StaffNumberTaken);
      }
      store.RenameOwner(oldId, newId);
      RekeyAccount(oldId, newId);
      return None;
    }

    /** The first login of an identity. */
    method FirstLogin(profile: Profile, key: (string, string), draw: Draw)
      returns (userId: string, error: Option<AccountError>)
      modifies this
      ensures match Register(old(Rows()), profile, key, draw)
        case Accepted(next, id) => error.None? && userId == id && Rows() == next
        case Refused(reason) => error == Some(reason) && Rows() == old(Rows())
    {
      userId := NewUserId(profile, draw.userId);
      if HasSpace(TrimSpace(profile.staffNumber)) {
        return userId, Some(StaffNumberHasSpace);
      }
      var username, _ := NextAvailableUsername(users, profile.username, key.1);
      if userId in users {
        return userId, Some(UserIdTaken);
      }
      var used := exists k | k in identities :: identities[k].id == draw.identityId;
      if used {
        return userId, Some(IdentityIdTaken);
      }
      Insert(userId, UserRow(profile, username, draw.now), key,
             IdentityRow(profile, draw.identityId, userId, draw.now, draw.now), profile.isAdmin, draw.now);
      error := None;
    }

    /** The statements of a first login once nothing stands against it. */
    method Insert(userId: string, user: User, key: (string, string), identity: Identity, isAdmin: bool, now: string)
      modifies this
      ensures users == old(users)[userId := user] && identities == old(identities)[key := identity]
      ensures roles == Grants(old(roles), userId, isAdmin, now) && favorites == old(favorites)
    {
      users := users[userId := user];
      identities := identities[key := identity];
      roles := Grants(roles, userId, isAdmin, now);
    }

    /** A login of a known identity, moving the account to its staff number first. */
    method LaterLogin(profile: Profile, draw: Draw) returns (userId: string, error: Option<AccountError>)
      requires store.Valid() && KeyOfProfile(profile) in identities && identities[KeyOfProfile(profile)].userId in users
      modifies this, store
      ensures store.Valid()
      ensures match Refresh(old(Rows()), profile, KeyOfProfile(profile), draw.now)
        case Accepted(next, id) =>
          error.None? && userId == id && Rows() == next && store.db == MovedItems(old(store.db), old(Rows()), profile)
        case Refused(reason) => error == Some(reason) && Rows() == old(Rows()) && store.db == old(store.db)
    {
      var key := KeyOfProfile(profile);
      userId := identities[key].userId;
      var staff := TrimSpace(profile.staffNumber);
      if staff != "" && userId != staff {
        error := Rekey(userId, staff);
        if error.Some? {
          return;
        }
        userId := staff;
      }
      users := users[userId := RefreshedUser(users[userId], profile, draw.now)];
      identities := identities[
        key := IdentityRow(profile, identities[key].id, userId, identities[key].linkedAt, draw.now)];
      roles := Grants(roles, userId, profile.isAdmin, draw.now);
      error := None;
    }

    /** UpsertOIDCUser: the transaction, then the user as read back. */
    method UpsertOIDCUser(profile: Profile, draw: Draw) returns (user: Option<MarketUser>, error: Option<AccountError>)
      requires Proper(Rows()) && store.Valid() && ProperId(draw.userId)
      modifies this, store
      ensures Proper(Rows()) && store.Valid()
      ensures match Upsert(old(Rows()), profile, draw)
        case Accepted(next, id) =>
          && error.None? && user == FindUser(next, id) && user.Some? && user.value.id == id
          && Rows() == next && store.db == MovedItems(old(store.db), old(Rows()), profile)
        case Refused(reason) =>
          error == Some(reason) && user.None? && Rows() == old(Rows()) && store.db == old(store.db)
    {
      var key := KeyOfProfile(profile);
      if key.0 == "" || key.1 == "" {
        return None, Some(IdentityRequired);
      }
      ghost var before := Rows();
      if Upsert(before, profile, draw).Accepted? {
        UpsertKeepsProper(before, profile, draw);
        LoginIsAnswered(before, profile, draw);
      }
      var userId: string;
      if key !in identities {
        userId, error := FirstLogin(profile, key, draw);
      } else {
        userId, error := LaterLogin(profile, draw);
      }
      user := if error.Some? then None else FindUser(Rows(), userId);
    }
  }
}

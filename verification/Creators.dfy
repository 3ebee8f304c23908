/** Who owns what, over runs that mix logins with calls on items. An item belongs to a
    user or to a guest: a principal of a token or of the proxy, which has no account. An
    account that moves to its staff number takes its items along, and joins them with
    the items of a guest of that name if there is one: nothing else ever makes the items
    of two owners those of one. */
module Creators {
  import opened Text
  import opened Market
  import opened Release
  import opened Consistency
  import opened Ledger
  import opened StoreRuns
  import opened Accounts

  /** The account tables and the rows of every item. */
  datatype World = World(directory: Directory, db: map<ItemKey, Tables>)

  const NO_ACCOUNTS := Directory(map[], map[], {}, {})

  datatype Visit = Login(profile: Profile, draw: Draw) | Use(key: ItemKey, op: Op)

  ghost function VisitAfter(w: World, visit: Visit): World
    requires Proper(w.directory)
  {
    match visit
    case Login(profile, draw) =>
      (match Upsert(w.directory, profile, draw)
       case Accepted(next, _) => World(next, MovedItems(w.db, w.directory, profile))
       case Refused(_) => w)
    case Use(key, op) => w.(db := CallAfter(w.db, OnItem(key, op)))
  }

  /** A submission names an existing user, a guest or nobody. */
  ghost predicate LegitVisit(w: World, guests: set<string>, visit: Visit) {
    match visit
    case Login(_, draw) => ProperId(draw.userId)
    case Use(key, op) =>
      LegitCall(w.db, OnItem(key, op)) && (op.Submit? ==> CreatorOf(op.req) in Owners(w.directory, guests))
  }

  function Owners(d: Directory, guests: set<string>): set<string> { d.users.Keys + guests + {""} }

  ghost predicate ItemsSound(db: map<ItemKey, Tables>, owners: set<string>) {
    forall key :: key in db ==> Consistent(db[key], key) && CreatedBy(db[key].versions, owners)
  }

  /** The directory is proper, and every creator is a user, a guest or nobody. */
  ghost predicate Orderly(w: World, guests: set<string>) {
    Proper(w.directory) && ItemsSound(w.db, Owners(w.directory, guests))
  }

  lemma ItemSound(db: map<ItemKey, Tables>, owners: set<string>, key: ItemKey)
    requires ItemsSound(db, owners)
    ensures Consistent(SliceOf(db, key), key) && CreatedBy(SliceOf(db, key).versions, owners)
  {
  }

  lemma ItemChanged(db: map<ItemKey, Tables>, owners: set<string>, key: ItemKey, next: Tables)
    requires ItemsSound(db, owners) && Consistent(next, key) && CreatedBy(next.versions, owners)
    ensures ItemsSound(db[key := next], owners)
  {
  }

  lemma UseKeepsSound(w: World, guests: set<string>, key: ItemKey, op: Op)
    requires Orderly(w, guests) && LegitVisit(w, guests, Use(key, op))
    ensures Orderly(VisitAfter(w, Use(key, op)), guests)
  {
    var t, owners := SliceOf(w.db, key), Owners(w.directory, guests);
    ItemSound(w.db, owners, key);
    StepKeepsConsistent(t, key, op);
    StepKeepsCreators(t, key, op, owners);
    ItemChanged(w.db, owners, key, After(t, key, op));
  }

  lemma RenamedItemsSound(db: map<ItemKey, Tables>, owners: set<string>, oldId: string, newId: string)
    requires ItemsSound(db, owners)
    ensures ItemsSound(Renamed(db, oldId, newId), owners - {oldId} + {newId})
  {
    forall key | key in db
      ensures Consistent(Rekey(db[key], oldId, newId), key)
      ensures CreatedBy(Rekey(db[key], oldId, newId).versions, owners - {oldId} + {newId})
    {
      RekeyKeepsConsistent(db[key], key, oldId, newId);
    }
  }

  lemma MoreOwners(db: map<ItemKey, Tables>, owners: set<string>, more: set<string>)
    requires ItemsSound(db, owners) && owners <= more
    ensures ItemsSound(db, more)
  {
  }

  /** The login moves its account to the staff number. */
  predicate Moves(d: Directory, profile: Profile) {
    KeyOfProfile(profile) in d.identities && MovesTo(d, KeyOfProfile(profile), TrimSpace(profile.staffNumber))
  }

  /** The account a known identity stands for. */
  function AccountOf(d: Directory, profile: Profile): string
    requires KeyOfProfile(profile) in d.identities
  {
    d.identities[KeyOfProfile(profile)].userId
  }

  lemma RefreshedOwners(d: Directory, profile: Profile, key: (string, string), id: string, now: string)
    requires key in d.identities && id in d.users
    ensures Refreshed(d, profile, key, id, now).users.Keys == d.users.Keys
  {
  }

  lemma MovedOwners(d: Directory, profile: Profile, draw: Draw)
    requires Proper(d) && Upsert(d, profile, draw).Accepted? && Moves(d, profile)
    ensures var staff := TrimSpace(profile.staffNumber);
      && staff != "" && staff !in d.users && AccountOf(d, profile) in d.users
      && Upsert(d, profile, draw).directory.users.Keys == d.users.Keys - {AccountOf(d, profile)} + {staff}
      && Upsert(d, profile, draw).userId == staff
  {
    var key, staff := KeyOfProfile(profile), TrimSpace(profile.staffNumber);
    var moved := Moved(d, key, staff);
    assert moved.users.Keys == d.users.Keys - {AccountOf(d, profile)} + {staff};
    RefreshedOwners(moved, profile, key, staff, draw.now);
  }

  lemma MovedUser(d: Directory, profile: Profile, draw: Draw)
    requires Proper(d) && Upsert(d, profile, draw).Accepted? && Moves(d, profile)
    ensures Upsert(d, profile, draw).userId == TrimSpace(profile.staffNumber)
  {
    MovedOwners(d, profile, draw);
  }

  lemma KeptOwners(d: Directory, profile: Profile, draw: Draw)
    requires Proper(d) && Upsert(d, profile, draw).Accepted? && !Moves(d, profile)
    ensures d.users.Keys <= Upsert(d, profile, draw).directory.users.Keys
    ensures KeyOfProfile(profile) in d.identities ==> Upsert(d, profile, draw).userId == AccountOf(d, profile)
  {
  }

  lemma LoginKeepsSound(w: World, guests: set<string>, profile: Profile, draw: Draw)
    requires Orderly(w, guests) && ProperId(draw.userId)
    ensures Orderly(VisitAfter(w, Login(profile, draw)), guests)
  {
    var d := w.directory;
    if Upsert(d, profile, draw).Accepted? {
      UpsertKeepsProper(d, profile, draw);
      LoginKeepsItems(w, guests, profile, draw);
    }
  }

  lemma LoginKeepsItems(w: World, guests: set<string>, profile: Profile, draw: Draw)
    requires Orderly(w, guests) && Upsert(w.directory, profile, draw).Accepted?
    ensures ItemsSound(MovedItems(w.db, w.directory, profile),
                       Owners(Upsert(w.directory, profile, draw).directory, guests))
  {
    var d, staff := w.directory, TrimSpace(profile.staffNumber);
    var next, known := Upsert(d, profile, draw).directory, Owners(d, guests);
    if Moves(d, profile) {
      MovedOwners(d, profile, draw);
      RenamedItemsSound(w.db, known, AccountOf(d, profile), staff);
      MoreOwners(Renamed(w.db, AccountOf(d, profile), staff),
                 known - {AccountOf(d, profile)} + {staff}, Owners(next, guests));
    } else {
      KeptOwners(d, profile, draw);
      MoreOwners(w.db, known, Owners(next, guests));
    }
  }

  lemma VisitKeepsSound(w: World, guests: set<string>, visit: Visit)
    requires Orderly(w, guests) && LegitVisit(w, guests, visit)
    ensures Orderly(VisitAfter(w, visit), guests)
  {
    match visit
    case Login(profile, draw) => LoginKeepsSound(w, guests, profile, draw);
    case Use(key, op) => UseKeepsSound(w, guests, key, op);
  }

  ghost predicate VisitRun(visits: seq<Visit>, worlds: seq<World>, guests: set<string>) {
    && |worlds| == |visits| + 1
    && worlds[0] == World(NO_ACCOUNTS, map[])
    && forall i {:trigger Visited(visits, worlds, guests, i)} :: 0 <= i < |visits| ==>
      Visited(visits, worlds, guests, i)
  }

  ghost predicate Visited(visits: seq<Visit>, worlds: seq<World>, guests: set<string>, i: nat)
    requires i < |visits| && |worlds| == |visits| + 1
  {
    && LegitVisit(worlds[i], guests, visits[i])
    && (Proper(worlds[i].directory) ==> worlds[i + 1] == VisitAfter(worlds[i], visits[i]))
  }

  /** In every run of logins and calls, creators are users, guests or nobody, and the
      account tables are proper. */
  lemma {:induction false} CreatorsAreKnown(visits: seq<Visit>, worlds: seq<World>, guests: set<string>, n: nat)
    requires VisitRun(visits, worlds, guests) && n <= |visits|
    ensures Orderly(worlds[n], guests)
  {
    if n > 0 {
      CreatorsAreKnown(visits, worlds, guests, n - 1);
      assert Visited(visits, worlds, guests, n - 1);
      VisitKeepsSound(worlds[n - 1], guests, visits[n - 1]);
    }
  }

  /** The owner of an item. */
  function OwnerOf(db: map<ItemKey, Tables>, key: ItemKey): Option<string> {
    var item := SliceOf(db, key).item;
    if item.Some? then Some(item.value.creator) else None
  }

  lemma OwnerIsKnown(db: map<ItemKey, Tables>, owners: set<string>, key: ItemKey)
    requires ItemsSound(db, owners)
    ensures OwnerOf(db, key).Some? ==> OwnerOf(db, key).value in owners
  {
    ItemSound(db, owners, key);
    ItemCreatedByVersions(SliceOf(db, key), key, owners);
  }

  function RenamedOwner(owner: Option<string>, oldId: string, newId: string): Option<string> {
    if owner.Some? then Some(Rename(owner.value, oldId, newId)) else None
  }

  lemma OwnersRenamed(db: map<ItemKey, Tables>, oldId: string, newId: string, key: ItemKey)
    ensures OwnerOf(Renamed(db, oldId, newId), key) == RenamedOwner(OwnerOf(db, key), oldId, newId)
  {
  }

  // ------------------------------------------------------------- one login

  /** The visit moves an account to the staff number it names. */
  ghost predicate MovingLogin(w: World, visit: Visit)
    requires Proper(w.directory)
  {
    visit.Login? && Upsert(w.directory, visit.profile, visit.draw).Accepted? && Moves(w.directory, visit.profile)
  }

  /** One of the two belongs to the account that moves, the other to its staff number. */
  ghost predicate Joins(w: World, visit: Visit, a: Option<string>, b: Option<string>)
    requires Proper(w.directory)
  {
    && MovingLogin(w, visit)
    && var account, staff := Some(AccountOf(w.directory, visit.profile)), Some(TrimSpace(visit.profile.staffNumber));
       (a == account && b == staff) || (a == staff && b == account)
  }

  lemma OwnerAfterLogin(w: World, profile: Profile, draw: Draw, k: ItemKey)
    requires Proper(w.directory)
    ensures OwnerOf(VisitAfter(w, Login(profile, draw)).db, k)
      == if MovingLogin(w, Login(profile, draw))
         then RenamedOwner(OwnerOf(w.db, k), AccountOf(w.directory, profile), TrimSpace(profile.staffNumber))
         else OwnerOf(w.db, k)
  {
    if MovingLogin(w, Login(profile, draw)) {
      OwnersRenamed(w.db, AccountOf(w.directory, profile), TrimSpace(profile.staffNumber), k);
    }
  }

  lemma RenamingJoins(a: Option<string>, b: Option<string>, oldId: string, newId: string)
    requires oldId != newId
    ensures RenamedOwner(a, oldId, newId) == RenamedOwner(b, oldId, newId)
      <==> a == b || (a == Some(oldId) && b == Some(newId)) || (a == Some(newId) && b == Some(oldId))
  {
  }

  /** After a login two items have one owner if and only if they had one before, or one
      belonged to the account that moves and the other to its staff number. */
  lemma LoginJoinsExactly(w: World, profile: Profile, draw: Draw, k: ItemKey, l: ItemKey)
    requires Proper(w.directory)
    ensures var next := VisitAfter(w, Login(profile, draw)).db;
      OwnerOf(next, k) == OwnerOf(next, l)
      <==> OwnerOf(w.db, k) == OwnerOf(w.db, l) || Joins(w, Login(profile, draw), OwnerOf(w.db, k), OwnerOf(w.db, l))
  {
    OwnerAfterLogin(w, profile, draw, k);
    OwnerAfterLogin(w, profile, draw, l);
    if MovingLogin(w, Login(profile, draw)) {
      RenamingJoins(OwnerOf(w.db, k), OwnerOf(w.db, l), AccountOf(w.directory, profile),
                    TrimSpace(profile.staffNumber));
    }
  }

  /** The items of the user answered are afterwards those that bore that name already
      and those of the account that logged in, if there was one. */
  lemma ItemsFollowAccount(w: World, profile: Profile, draw: Draw, k: ItemKey)
    requires Proper(w.directory) && Upsert(w.directory, profile, draw).Accepted?
    ensures var d, user := w.directory, Upsert(w.directory, profile, draw).userId;
      OwnerOf(VisitAfter(w, Login(profile, draw)).db, k) == Some(user)
      <==> OwnerOf(w.db, k) == Some(user)
           || (KeyOfProfile(profile) in d.identities && OwnerOf(w.db, k) == Some(AccountOf(d, profile)))
  {
    OwnerAfterLogin(w, profile, draw, k);
    if Moves(w.directory, profile) {
      MovedUser(w.directory, profile, draw);
    } else {
      KeptOwners(w.directory, profile, draw);
    }
  }

  lemma JoinedName(w: World, visit: Visit, a: Option<string>, b: Option<string>)
    requires Proper(w.directory) && Joins(w, visit, a, b)
    ensures var staff := TrimSpace(visit.profile.staffNumber);
      && (a == Some(staff) || b == Some(staff)) && staff != "" && staff !in w.directory.users
  {
    MovedOwners(w.directory, visit.profile, visit.draw);
  }

  lemma GuestName(d: Directory, guests: set<string>, id: string)
    requires id in Owners(d, guests) && id != "" && id !in d.users
    ensures id in guests
  {
  }

  /** Only a guest can be joined: a staff number that is a user already is refused. */
  lemma OnlyGuestsAreJoined(w: World, guests: set<string>, visit: Visit, k: ItemKey, l: ItemKey)
    requires Orderly(w, guests) && Joins(w, visit, OwnerOf(w.db, k), OwnerOf(w.db, l))
    ensures TrimSpace(visit.profile.staffNumber) in guests
  {
    JoinedName(w, visit, OwnerOf(w.db, k), OwnerOf(w.db, l));
    OwnerIsKnown(w.db, Owners(w.directory, guests), k);
    OwnerIsKnown(w.db, Owners(w.directory, guests), l);
    GuestName(w.directory, guests, TrimSpace(visit.profile.staffNumber));
  }

  // ------------------------------------------------------------- whole runs

  /** Item and versions agree on the owner. */
  ghost predicate Settled(t: Tables) { t.item.Some? ==> OwnedBy(t, t.item.value.creator) }

  ghost predicate AllSettled(db: map<ItemKey, Tables>) { forall key :: key in db ==> Settled(db[key]) }

  ghost predicate SignedVisit(visit: Visit) { visit.Use? ==> Signed(visit.op) }

  lemma StepSettles(t: Tables, key: ItemKey, op: Op)
    requires Consistent(t, key) && Settled(t) && Legit(t, key, op) && Signed(op)
    ensures Settled(After(t, key, op))
  {
    if t.item.Some? {
      StepKeepsOwner(t, key, op, t.item.value.creator);
    } else if After(t, key, op).item.Some? {
      FirstStepOwns(t, key, op);
    }
  }

  lemma OwnerStays(t: Tables, key: ItemKey, op: Op)
    requires Consistent(t, key) && Settled(t) && Legit(t, key, op) && Signed(op) && !op.RenameUser? && t.item.Some?
    ensures After(t, key, op).item.Some? && After(t, key, op).item.value.creator == t.item.value.creator
  {
    StepKeepsOwner(t, key, op, t.item.value.creator);
  }

  lemma RenamedSettles(db: map<ItemKey, Tables>, owners: set<string>, oldId: string, newId: string)
    requires ItemsSound(db, owners) && AllSettled(db) && newId != ""
    ensures AllSettled(Renamed(db, oldId, newId))
  {
    forall key | key in db ensures Settled(Rekey(db[key], oldId, newId)) {
      StepSettles(db[key], key, RenameUser(oldId, newId));
    }
  }

  lemma SliceSettled(db: map<ItemKey, Tables>, key: ItemKey)
    requires AllSettled(db)
    ensures Settled(SliceOf(db, key))
  {
  }

  lemma MoreSettled(db: map<ItemKey, Tables>, key: ItemKey, next: Tables)
    requires AllSettled(db) && Settled(next)
    ensures AllSettled(db[key := next])
  {
  }

  lemma UseSettles(w: World, guests: set<string>, key: ItemKey, op: Op)
    requires Orderly(w, guests) && AllSettled(w.db) && LegitVisit(w, guests, Use(key, op)) && Signed(op)
    ensures AllSettled(VisitAfter(w, Use(key, op)).db)
  {
    var t := SliceOf(w.db, key);
    ItemSound(w.db, Owners(w.directory, guests), key);
    SliceSettled(w.db, key);
    StepSettles(t, key, op);
    MoreSettled(w.db, key, After(t, key, op));
  }

  lemma OtherOwner(db: map<ItemKey, Tables>, key: ItemKey, op: Op, k: ItemKey)
    requires k != key
    ensures OwnerOf(CallAfter(db, OnItem(key, op)), k) == OwnerOf(db, k)
  {
  }

  lemma OwnOwner(db: map<ItemKey, Tables>, key: ItemKey, op: Op)
    ensures SliceOf(CallAfter(db, OnItem(key, op)), key) == After(SliceOf(db, key), key, op)
  {
  }

  lemma UseKeepsOwner(w: World, guests: set<string>, key: ItemKey, op: Op, k: ItemKey)
    requires Orderly(w, guests) && AllSettled(w.db) && LegitVisit(w, guests, Use(key, op)) && Signed(op)
    requires OwnerOf(w.db, k).Some?
    ensures OwnerOf(VisitAfter(w, Use(key, op)).db, k) == OwnerOf(w.db, k)
  {
    if k == key {
      ItemSound(w.db, Owners(w.directory, guests), key);
      SliceSettled(w.db, key);
      OwnerStays(SliceOf(w.db, key), key, op);
      OwnOwner(w.db, key, op);
    } else {
      OtherOwner(w.db, key, op, k);
    }
  }

  lemma LoginSettles(w: World, guests: set<string>, profile: Profile, draw: Draw)
    requires Orderly(w, guests) && AllSettled(w.db)
    ensures AllSettled(VisitAfter(w, Login(profile, draw)).db)
  {
    if MovingLogin(w, Login(profile, draw)) {
      MovedOwners(w.directory, profile, draw);
      RenamedSettles(w.db, Owners(w.directory, guests), AccountOf(w.directory, profile),
                     TrimSpace(profile.staffNumber));
    }
  }

  /** Every visit keeps owners, and joins those of two items exactly as said. */
  lemma VisitJoinsExactly(w: World, guests: set<string>, visit: Visit, k: ItemKey, l: ItemKey)
    requires Orderly(w, guests) && AllSettled(w.db) && LegitVisit(w, guests, visit) && SignedVisit(visit)
    requires OwnerOf(w.db, k).Some? && OwnerOf(w.db, l).Some?
    ensures var next := VisitAfter(w, visit).db;
      && OwnerOf(next, k).Some? && OwnerOf(next, l).Some?
      && (OwnerOf(next, k) == OwnerOf(next, l)
          <==> OwnerOf(w.db, k) == OwnerOf(w.db, l) || Joins(w, visit, OwnerOf(w.db, k), OwnerOf(w.db, l)))
  {
    match visit
    case Login(profile, draw) =>
      OwnerAfterLogin(w, profile, draw, k);
      OwnerAfterLogin(w, profile, draw, l);
      LoginJoinsExactly(w, profile, draw, k, l);
    case Use(key, op) =>
      UseKeepsOwner(w, guests, key, op, k);
      UseKeepsOwner(w, guests, key, op, l);
  }

  lemma VisitSettles(w: World, guests: set<string>, visit: Visit)
    requires Orderly(w, guests) && AllSettled(w.db) && LegitVisit(w, guests, visit) && SignedVisit(visit)
    ensures AllSettled(VisitAfter(w, visit).db)
  {
    match visit
    case Login(profile, draw) => LoginSettles(w, guests, profile, draw);
    case Use(key, op) => UseSettles(w, guests, key, op);
  }

  lemma {:induction false} SignedRunsSettle(visits: seq<Visit>, worlds: seq<World>, guests: set<string>, n: nat)
    requires VisitRun(visits, worlds, guests) && n <= |visits|
    requires forall i :: 0 <= i < |visits| ==> SignedVisit(visits[i])
    ensures AllSettled(worlds[n].db)
  {
    if n > 0 {
      SignedRunsSettle(visits, worlds, guests, n - 1);
      CreatorsAreKnown(visits, worlds, guests, n - 1);
      assert Visited(visits, worlds, guests, n - 1);
      VisitSettles(worlds[n - 1], guests, visits[n - 1]);
    }
  }

  ghost predicate JoinsAt(visits: seq<Visit>, worlds: seq<World>, j: nat, k: ItemKey, l: ItemKey)
    requires j < |visits| < |worlds|
  {
    Proper(worlds[j].directory) && Joins(worlds[j], visits[j], OwnerOf(worlds[j].db, k), OwnerOf(worlds[j].db, l))
  }

  predicate OneOwner(worlds: seq<World>, n: nat, k: ItemKey, l: ItemKey)
    requires n < |worlds|
  {
    OwnerOf(worlds[n].db, k) == OwnerOf(worlds[n].db, l)
  }

  predicate BothOwned(worlds: seq<World>, n: nat, k: ItemKey, l: ItemKey)
    requires n < |worlds|
  {
    OwnerOf(worlds[n].db, k).Some? && OwnerOf(worlds[n].db, l).Some?
  }

  lemma RunStepJoins(visits: seq<Visit>, worlds: seq<World>, guests: set<string>, j: nat, k: ItemKey, l: ItemKey)
    requires VisitRun(visits, worlds, guests) && j < |visits| && BothOwned(worlds, j, k, l)
    requires forall i :: 0 <= i < |visits| ==> SignedVisit(visits[i])
    ensures BothOwned(worlds, j + 1, k, l)
    ensures OneOwner(worlds, j + 1, k, l) <==> OneOwner(worlds, j, k, l) || JoinsAt(visits, worlds, j, k, l)
  {
    CreatorsAreKnown(visits, worlds, guests, j);
    SignedRunsSettle(visits, worlds, guests, j);
    assert Visited(visits, worlds, guests, j);
    VisitJoinsExactly(worlds[j], guests, visits[j], k, l);
  }

  lemma {:induction false} OwnersStay(visits: seq<Visit>, worlds: seq<World>, guests: set<string>, i: nat, n: nat,
                                      k: ItemKey, l: ItemKey)
    requires VisitRun(visits, worlds, guests) && i <= n <= |visits| && BothOwned(worlds, i, k, l)
    requires forall j :: 0 <= j < |visits| ==> SignedVisit(visits[j])
    ensures BothOwned(worlds, n, k, l)
    decreases n
  {
    if i < n {
      OwnersStay(visits, worlds, guests, i, n - 1, k, l);
      RunStepJoins(visits, worlds, guests, n - 1, k, l);
    }
  }

  /** A condition that starts where it is caused and never ends. */
  lemma {:induction false} Caused(holds: seq<bool>, causes: seq<bool>, i: nat, n: nat)
    requires i <= n <= |causes| < |holds|
    requires forall j :: i <= j < n ==> (holds[j + 1] <==> holds[j] || causes[j])
    ensures holds[n] <==> holds[i] || exists j :: i <= j < n && causes[j]
    decreases n
  {
    if i < n {
      Caused(holds, causes, i, n - 1);
      assert holds[(n - 1) + 1] <==> holds[n - 1] || causes[n - 1];
    }
  }

  lemma Joinings(visits: seq<Visit>, worlds: seq<World>, k: ItemKey, l: ItemKey) returns (joins: seq<bool>)
    requires |visits| < |worlds|
    ensures |joins| == |visits|
    ensures forall j {:trigger joins[j]} {:trigger JoinsAt(visits, worlds, j, k, l)} :: 0 <= j < |visits| ==>
      (joins[j] <==> JoinsAt(visits, worlds, j, k, l))
  {
    joins := seq(|visits|, j requires 0 <= j < |visits| => JoinsAt(visits, worlds, j, k, l));
  }

  /** In every run whose submissions name a creator, two items have one owner if and only
      if they had one at any earlier moment, or a login in between has joined them. */
  lemma OwnersMeetExactly(visits: seq<Visit>, worlds: seq<World>, guests: set<string>, i: nat, n: nat, k: ItemKey,
                          l: ItemKey)
    requires VisitRun(visits, worlds, guests) && i <= n <= |visits|
    requires forall j :: 0 <= j < |visits| ==> SignedVisit(visits[j])
    requires BothOwned(worlds, i, k, l)
    ensures BothOwned(worlds, n, k, l)
    ensures OneOwner(worlds, n, k, l)
      <==> OneOwner(worlds, i, k, l) || exists j :: i <= j < n && JoinsAt(visits, worlds, j, k, l)
  {
    var one := seq(|worlds|, j requires 0 <= j < |worlds| => OneOwner(worlds, j, k, l));
    var joins := Joinings(visits, worlds, k, l);
    forall j | i <= j < n ensures one[j + 1] <==> one[j] || joins[j] {
      OwnersStay(visits, worlds, guests, i, j, k, l);
      RunStepJoins(visits, worlds, guests, j, k, l);
    }
    OwnersStay(visits, worlds, guests, i, n, k, l);
    Caused(one, joins, i, n);
  }

  /** As long as no login names a guest as its staff number, owners stay apart. */
  lemma StrangersStayApart(visits: seq<Visit>, worlds: seq<World>, guests: set<string>, i: nat, n: nat, k: ItemKey,
                           l: ItemKey)
    requires VisitRun(visits, worlds, guests) && i <= n <= |visits|
    requires forall j :: 0 <= j < |visits| ==> SignedVisit(visits[j])
    requires forall j :: 0 <= j < |visits| && visits[j].Login? ==> TrimSpace(visits[j].profile.staffNumber) !in guests
    requires BothOwned(worlds, i, k, l)
    ensures OneOwner(worlds, n, k, l) <==> OneOwner(worlds, i, k, l)
  {
    OwnersMeetExactly(visits, worlds, guests, i, n, k, l);
    forall j | i <= j < n ensures !JoinsAt(visits, worlds, j, k, l) {
      if JoinsAt(visits, worlds, j, k, l) {
        CreatorsAreKnown(visits, worlds, guests, j);
        OnlyGuestsAreJoined(worlds[j], guests, visits[j], k, l);
      }
    }
  }
}

/** Runs of the whole store. Every call names one item, a rename goes over all of
    them, and what an item sees is a run of its own calls. */
module StoreRuns {
  import opened Text
  import opened Market
  import opened Release
  import opened Consistency
  import opened PublicView
  import opened ReleaseStack
  import opened Ledger

  datatype StoreCall = OnItem(key: ItemKey, op: Op) | RenameEverywhere(oldId: string, newId: string)

  ghost predicate LegitCall(db: map<ItemKey, Tables>, call: StoreCall) {
    match call
    case OnItem(key, op) => Legit(SliceOf(db, key), key, op) && !op.RenameUser?
    case RenameEverywhere(_, _) => true
  }

  ghost function CallAfter(db: map<ItemKey, Tables>, call: StoreCall): map<ItemKey, Tables> {
    match call
    case OnItem(key, op) =>
      (match Apply(SliceOf(db, key), key, op) case Done(tables) => db[key := tables] case Failed(_) => db)
    case RenameEverywhere(oldId, newId) => Renamed(db, oldId, newId)
  }

  ghost predicate StoreRun(calls: seq<StoreCall>, dbs: seq<map<ItemKey, Tables>>) {
    && |dbs| == |calls| + 1
    && dbs[0] == map[]
    && forall i :: 0 <= i < |calls| ==> LegitCall(dbs[i], calls[i]) && dbs[i + 1] == CallAfter(dbs[i], calls[i])
  }

  /** What a call asks of one item, if anything. */
  function OpOn(call: StoreCall, key: ItemKey): Option<Op> {
    match call
    case OnItem(k, op) => if k == key then Some(op) else None
    case RenameEverywhere(oldId, newId) => Some(RenameUser(oldId, newId))
  }

  /** The calls that concern an item, as operations on it. */
  function OpsFor(calls: seq<StoreCall>, key: ItemKey): seq<Op> {
    if calls == [] then []
    else
      var earlier := OpsFor(calls[..|calls| - 1], key);
      match OpOn(calls[|calls| - 1], key)
      case None => earlier
      case Some(op) => earlier + [op]
  }

  /** The operation and the rows it meets are those of some call of the run. */
  ghost predicate Met(calls: seq<StoreCall>, dbs: seq<map<ItemKey, Tables>>, key: ItemKey, op: Op, t: Tables)
    requires |dbs| == |calls| + 1
  {
    exists i :: 0 <= i < |calls| && OpOn(calls[i], key) == Some(op) && SliceOf(dbs[i], key) == t
  }

  ghost predicate Traced(calls: seq<StoreCall>, dbs: seq<map<ItemKey, Tables>>, key: ItemKey, ops: seq<Op>,
                         states: seq<Tables>)
    requires |dbs| == |calls| + 1
  {
    |states| == |ops| + 1 && forall j :: 0 <= j < |ops| ==> Met(calls, dbs, key, ops[j], states[j])
  }

  lemma CallOnSlice(db: map<ItemKey, Tables>, call: StoreCall, key: ItemKey)
    ensures match OpOn(call, key)
      case None => SliceOf(CallAfter(db, call), key) == SliceOf(db, key)
      case Some(op) => SliceOf(CallAfter(db, call), key) == After(SliceOf(db, key), key, op)
  {
  }

  lemma MetLater(calls: seq<StoreCall>, dbs: seq<map<ItemKey, Tables>>, key: ItemKey, op: Op, t: Tables)
    requires calls != [] && |dbs| == |calls| + 1
    requires Met(calls[..|calls| - 1], dbs[..|calls|], key, op, t)
    ensures Met(calls, dbs, key, op, t)
  {
    var n := |calls| - 1;
    var i :| 0 <= i < n && OpOn(calls[..n][i], key) == Some(op) && SliceOf(dbs[..n + 1][i], key) == t;
    assert OpOn(calls[i], key) == Some(op) && SliceOf(dbs[i], key) == t;
  }

  lemma TracedLater(calls: seq<StoreCall>, dbs: seq<map<ItemKey, Tables>>, key: ItemKey, ops: seq<Op>,
                    states: seq<Tables>)
    requires calls != [] && |dbs| == |calls| + 1
    requires Traced(calls[..|calls| - 1], dbs[..|calls|], key, ops, states)
    ensures Traced(calls, dbs, key, ops, states)
  {
    forall j | 0 <= j < |ops| ensures Met(calls, dbs, key, ops[j], states[j]) {
      MetLater(calls, dbs, key, ops[j], states[j]);
    }
  }

  lemma TracedNow(calls: seq<StoreCall>, dbs: seq<map<ItemKey, Tables>>, key: ItemKey, ops: seq<Op>,
                  states: seq<Tables>, op: Op, next: Tables)
    requires calls != [] && |dbs| == |calls| + 1 && Traced(calls, dbs, key, ops, states)
    requires OpOn(calls[|calls| - 1], key) == Some(op) && states[|ops|] == SliceOf(dbs[|calls| - 1], key)
    ensures Traced(calls, dbs, key, ops + [op], states + [next])
  {
    var all, ends := ops + [op], states + [next];
    forall j | 0 <= j < |all| ensures Met(calls, dbs, key, all[j], ends[j]) {
      if j < |ops| {
        assert Met(calls, dbs, key, ops[j], states[j]);
      } else {
        assert OpOn(calls[|calls| - 1], key) == Some(all[j]) && SliceOf(dbs[|calls| - 1], key) == ends[j];
      }
    }
  }

  lemma RunInit(calls: seq<StoreCall>, dbs: seq<map<ItemKey, Tables>>)
    requires StoreRun(calls, dbs) && calls != []
    ensures var n := |calls| - 1;
      StoreRun(calls[..n], dbs[..n + 1]) && LegitCall(dbs[n], calls[n]) && dbs[n + 1] == CallAfter(dbs[n], calls[n])
  {
  }

  /** An item's rows go through a run of the calls that concern it: no other call
      touches them, so every result about runs holds of every item of the store. */
  lemma {:induction false} SlicesRun(calls: seq<StoreCall>, dbs: seq<map<ItemKey, Tables>>, key: ItemKey)
    returns (states: seq<Tables>)
    requires StoreRun(calls, dbs)
    ensures Run(key, OpsFor(calls, key), states)
    ensures states[|OpsFor(calls, key)|] == SliceOf(dbs[|calls|], key)
    ensures Traced(calls, dbs, key, OpsFor(calls, key), states)
    decreases |calls|
  {
    if calls == [] {
      states := [NO_ROWS];
    } else {
      var n := |calls| - 1;
      RunInit(calls, dbs);
      states := SlicesRun(calls[..n], dbs[..n + 1], key);
      var ops, next := OpsFor(calls[..n], key), SliceOf(dbs[n + 1], key);
      TracedLater(calls, dbs, key, ops, states);
      CallOnSlice(dbs[n], calls[n], key);
      var op := OpOn(calls[n], key);
      if op.Some? {
        RunExtended(key, ops, states, op.value, next);
        TracedNow(calls, dbs, key, ops, states, op.value, next);
        states := states + [next];
      }
    }
  }

  // ------------------------------------------------ what holds of every item

  lemma StoreRunsAreConsistent(calls: seq<StoreCall>, dbs: seq<map<ItemKey, Tables>>, key: ItemKey)
    requires StoreRun(calls, dbs)
    ensures Consistent(SliceOf(dbs[|calls|], key), key)
  {
    var states := SlicesRun(calls, dbs, key);
    RunsAreConsistent(key, OpsFor(calls, key), states);
  }

  /** The log of every item tells the status of each of its versions. */
  lemma StoreRunsAreAudited(calls: seq<StoreCall>, dbs: seq<map<ItemKey, Tables>>, key: ItemKey)
    requires StoreRun(calls, dbs)
    ensures Audited(SliceOf(dbs[|calls|], key).versions, SliceOf(dbs[|calls|], key).events)
  {
    var states := SlicesRun(calls, dbs, key);
    RunsAreAudited(key, OpsFor(calls, key), states);
  }

  /** An item whose reviews find something pending, or leave it as live as it was, is a
      stack, whatever happens to other items. */
  lemma StoreRunsAreStacks(calls: seq<StoreCall>, dbs: seq<map<ItemKey, Tables>>, key: ItemKey) returns (a: Lifo)
    requires StoreRun(calls, dbs)
    requires forall i :: 0 <= i < |calls| && OpOn(calls[i], key).Some? ==>
      Reviewed(SliceOf(dbs[i], key), OpOn(calls[i], key).value)
    ensures Simulates(SliceOf(dbs[|calls|], key), key, a)
  {
    var states := SlicesRun(calls, dbs, key);
    var ops := OpsFor(calls, key);
    forall j | 0 <= j < |ops| ensures Reviewed(states[j], ops[j]) {
      assert Met(calls, dbs, key, ops[j], states[j]);
    }
    RunsAreStacks(key, ops, states);
    a := LifoRun(key, ops, states);
  }

  /** An item whose submissions name their creator has one owner. */
  lemma StoreRunsAreOwned(calls: seq<StoreCall>, dbs: seq<map<ItemKey, Tables>>, key: ItemKey)
    requires StoreRun(calls, dbs)
    requires forall i :: 0 <= i < |calls| && OpOn(calls[i], key).Some? ==> Signed(OpOn(calls[i], key).value)
    ensures var t := SliceOf(dbs[|calls|], key); t.item.Some? ==> OwnedBy(t, t.item.value.creator)
  {
    var states := SlicesRun(calls, dbs, key);
    var ops := OpsFor(calls, key);
    forall j | 0 <= j < |ops| ensures Signed(ops[j]) {
      assert Met(calls, dbs, key, ops[j], states[j]);
    }
    RunsAreOwned(key, ops, states);
  }

  predicate NamesItself(op: Op) { op.Submit? ==> TrimSpace(op.req.name) != "" }

  /** An item whose submissions have a name can always be rolled back. */
  lemma StoreRunsAreRestorable(calls: seq<StoreCall>, dbs: seq<map<ItemKey, Tables>>, key: ItemKey)
    requires StoreRun(calls, dbs)
    requires forall i :: 0 <= i < |calls| && OpOn(calls[i], key).Some? ==> NamesItself(OpOn(calls[i], key).value)
    ensures Restorable(SliceOf(dbs[|calls|], key), key)
  {
    var states := SlicesRun(calls, dbs, key);
    var ops := OpsFor(calls, key);
    forall j | 0 <= j < |ops| ensures NamesItself(ops[j]) {
      assert Met(calls, dbs, key, ops[j], states[j]);
    }
    NamedRunsAreRestorable(key, ops, states);
  }
}

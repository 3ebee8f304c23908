/** The loops of adp.go over a manifest that is changed in place, each proved to
    compute the function of module Adp that specifies it. */
module AdpDocument {
  import opened Text
  import opened Adp

  /** mergeStringList: collects into a set, lists the set in any order, sorts. */
  method MergeStringList(left: seq<string>, right: seq<string>) returns (result: seq<string>)
    ensures result == MergeStrings(left, right)
  {
    var seen: set<string> := {};
    for i := 0 to |left|
      invariant forall x :: x in seen <==> x in left[..i] && TrimSpace(x) != ""
    {
      assert left[..i + 1] == left[..i] + [left[i]];
      if TrimSpace(left[i]) != "" {
        seen := seen + {left[i]};
      }
    }
    assert left[..|left|] == left;
    for i := 0 to |right|
      invariant forall x :: x in seen <==> (x in left || x in right[..i]) && TrimSpace(x) != ""
    {
      assert right[..i + 1] == right[..i] + [right[i]];
      if TrimSpace(right[i]) != "" {
        seen := seen + {right[i]};
      }
    }
    assert right[..|right|] == right;
    var todo := seen;
    result := [];
    while todo != {}
      invariant todo <= seen && Sorted(result)
      invariant forall x :: x in result <==> x in seen - todo
      decreases todo
    {
      var value :| value in todo;
      InsertLaws(result, value);
      todo := todo - {value};
      result := Insert(result, value);
    }
    MergeStringsLaws(left, right);
    SortedUnique(result, MergeStrings(left, right));
  }

  /** The loop of mergeADPPackage over one platform field. */
  method MergeField(prior: Option<Fields>, current: Option<Fields>) returns (merged: Option<Fields>, ok: bool)
    ensures ok <==> JoinField(prior, current).Some?
    ensures ok ==> JoinField(prior, current) == Some(merged)
  {
    if current.None? {
      return prior, true;
    }
    var base: Fields := if prior.Some? then prior.value else map[];
    var result := base;
    var todo := current.value.Keys;
    while todo != {}
      invariant todo <= current.value.Keys
      invariant forall key :: key in current.value.Keys - todo ==>
        (key in base ==> base[key] == current.value[key]) && key in result && result[key] == current.value[key]
      invariant forall key :: key in todo ==>
        (key in result <==> key in base) && (key in base ==> result[key] == base[key])
      invariant forall key :: key !in current.value ==>
        (key in result <==> key in base) && (key in base ==> result[key] == base[key])
      decreases todo
    {
      var key :| key in todo;
      if key in result && result[key] != current.value[key] {
        assert !Agree(base, current.value);
        return prior, false;
      }
      result := result[key := current.value[key]];
      todo := todo - {key};
    }
    assert Agree(base, current.value);
    assert result == base + current.value;
    return Some(result), true;
  }

  method MergeAdpPackage(prior: Package, current: Package) returns (merged: Package, ok: bool)
    ensures ok <==> MergePackage(prior, current).Some?
    ensures ok ==> MergePackage(prior, current) == Some(merged)
  {
    if !prior.Spec? || !current.Spec? {
      return prior, prior == current;
    }
    if prior.rest != current.rest {
      return prior, false;
    }
    var from, fromOk := MergeField(prior.from, current.from);
    if !fromOk {
      return prior, false;
    }
    var sha256, shaOk := MergeField(prior.sha256, current.sha256);
    if !shaOk {
      return prior, false;
    }
    var archive, archiveOk := MergeField(prior.archive, current.archive);
    if !archiveOk {
      return prior, false;
    }
    var platforms := MergeStringList(PlatformList(prior), PlatformList(current));
    return Spec(prior.rest, from, sha256, archive, Some(platforms)), true;
  }

  predicate DistinctNames(names: seq<Option<string>>) {
    && (forall i :: 0 <= i < |names| ==> names[i].Some?)
    && (forall i, j :: 0 <= i < j < |names| ==> names[i] != names[j])
  }

  function NamesOf(packages: seq<Package>): seq<Option<string>> {
    seq(|packages|, i requires 0 <= i < |packages| => PackageId(packages[i]))
  }

  lemma NamesAreKeys(packages: seq<Package>, id: string)
    ensures DistinctNames(NamesOf(packages)) <==> Keyed(packages)
    ensures Some(id) in NamesOf(packages) <==> Has(packages, id)
  {
    var names := NamesOf(packages);
    assert forall i :: 0 <= i < |packages| ==> names[i] == PackageId(packages[i]);
    if Has(packages, id) {
      var i :| 0 <= i < |packages| && PackageId(packages[i]) == Some(id);
      assert names[i] == Some(id);
    }
  }

  ghost predicate AllPass(packages: seq<Package>) { forall i :: 0 <= i < |packages| ==> ValidPackage(packages[i]) }

  /** validateADPPackage on each package. */
  function VerdictsOf(packages: seq<Package>): seq<bool> {
    seq(|packages|, i requires 0 <= i < |packages| => ValidPackage(packages[i]))
  }

  lemma VerdictsDecide(packages: seq<Package>)
    ensures false !in VerdictsOf(packages) <==> AllPass(packages)
  {
    var verdicts := VerdictsOf(packages);
    assert forall i :: 0 <= i < |packages| ==> verdicts[i] == ValidPackage(packages[i]);
    assert forall i :: 0 <= i < |packages| ==> verdicts[i] in verdicts;
  }

  /** adpPackageID, then validateADPPackage. */
  method Examine(packages: seq<Package>, i: nat) returns (id: Option<string>, valid: bool)
    requires i < |packages|
    ensures id == NamesOf(packages)[i] && valid == VerdictsOf(packages)[i]
  {
    id := PackageId(packages[i]);
    valid := ValidPackage(packages[i]);
  }

  /** What the loop knows of the packages before i. */
  ghost predicate Collected(names: seq<Option<string>>, verdicts: seq<bool>, ids: set<string>) {
    DistinctNames(names) && false !in verdicts && forall id :: id in ids <==> Some(id) in names
  }

  lemma CollectedMore(names: seq<Option<string>>, verdicts: seq<bool>, ids: set<string>, id: string)
    requires Collected(names, verdicts, ids) && id !in ids
    ensures Collected(names + [Some(id)], verdicts + [true], ids + {id})
  {
  }

  lemma CollectedStuck(names: seq<Option<string>>, verdicts: seq<bool>, ids: set<string>, i: nat)
    requires i < |names| == |verdicts| && Collected(names[..i], verdicts[..i], ids)
    requires names[i].None? || names[i].value in ids || !verdicts[i]
    ensures !(DistinctNames(names) && false !in verdicts)
  {
    if names[i].Some? && names[i].value in ids {
      var k :| 0 <= k < i && names[..i][k] == names[i];
      assert names[k] == names[i];
    } else if !verdicts[i] {
      assert verdicts[i] in verdicts;
    }
  }

  ghost predicate CollectedTo(packages: seq<Package>, i: nat, ids: set<string>)
    requires i <= |packages|
  {
    Collected(NamesOf(packages)[..i], VerdictsOf(packages)[..i], ids)
  }

  ghost predicate AllSound(packages: seq<Package>) {
    DistinctNames(NamesOf(packages)) && false !in VerdictsOf(packages)
  }

  /** The body of the first loop of validateADPDocument. */
  method CollectName(packages: seq<Package>, i: nat, ids: set<string>) returns (more: set<string>, ok: bool)
    requires i < |packages| && CollectedTo(packages, i, ids)
    ensures ok ==> CollectedTo(packages, i + 1, more)
    ensures !ok ==> !AllSound(packages)
  {
    ghost var names, verdicts := NamesOf(packages), VerdictsOf(packages);
    var id, valid := Examine(packages, i);
    if id.None? || id.value in ids || !valid {
      CollectedStuck(names, verdicts, ids, i);
      return ids, false;
    }
    CollectedMore(names[..i], verdicts[..i], ids, id.value);
    assert names[..i + 1] == names[..i] + [id] && verdicts[..i + 1] == verdicts[..i] + [true];
    return ids + {id.value}, true;
  }

  /** The first loop of validateADPDocument: fails on the first package without a
      name, with a known name, or with a fault of its own. */
  method CollectNames(packages: seq<Package>) returns (ids: set<string>, ok: bool)
    ensures ok <==> AllSound(packages)
    ensures ok ==> forall id :: id in ids <==> Some(id) in NamesOf(packages)
  {
    ids, ok := {}, true;
    for i := 0 to |packages|
      invariant ok && CollectedTo(packages, i, ids)
    {
      ids, ok := CollectName(packages, i, ids);
      if !ok {
        return;
      }
    }
    CollectedAll(packages, ids);
  }

  lemma CollectedAll(packages: seq<Package>, ids: set<string>)
    requires CollectedTo(packages, |packages|, ids)
    ensures AllSound(packages) && forall id :: id in ids <==> Some(id) in NamesOf(packages)
  {
    assert NamesOf(packages)[..|packages|] == NamesOf(packages);
    assert VerdictsOf(packages)[..|packages|] == VerdictsOf(packages);
  }

  function NeedsOf(p: Package): seq<string> { if p.Spec? then StringSlice(p.rest, "needs") else [] }

  function NeedLists(packages: seq<Package>): seq<seq<string>> {
    seq(|packages|, i requires 0 <= i < |packages| => NeedsOf(packages[i]))
  }

  predicate Known(needs: seq<string>, ids: set<string>) { forall need :: need in needs ==> need in ids }

  predicate AllKnown(needs: seq<seq<string>>, ids: set<string>) {
    forall i :: 0 <= i < |needs| ==> Known(needs[i], ids)
  }

  lemma KnownAreMet(p: Package, packages: seq<Package>, ids: set<string>)
    requires forall id :: id in ids <==> Has(packages, id)
    ensures Known(NeedsOf(p), ids) <==> NeedsMet(p, packages)
  {
  }

  ghost predicate AllMet(packages: seq<Package>) { forall i :: 0 <= i < |packages| ==> NeedsMet(packages[i], packages) }

  lemma NeedListsDecide(packages: seq<Package>, ids: set<string>)
    requires forall id :: id in ids <==> Has(packages, id)
    ensures AllKnown(NeedLists(packages), ids) <==> AllMet(packages)
  {
    var needs := NeedLists(packages);
    forall i | 0 <= i < |packages| ensures Known(needs[i], ids) <==> NeedsMet(packages[i], packages) {
      KnownAreMet(packages[i], packages, ids);
    }
  }

  method CheckKnown(needs: seq<string>, ids: set<string>) returns (ok: bool)
    ensures ok <==> Known(needs, ids)
  {
    for n := 0 to |needs|
      invariant forall k :: 0 <= k < n ==> needs[k] in ids
    {
      if needs[n] !in ids {
        assert needs[n] in needs;
        return false;
      }
    }
    return true;
  }

  /** The second loop: whatever a package needs is among the names. */
  method CheckNeeds(needs: seq<seq<string>>, ids: set<string>) returns (ok: bool)
    ensures ok <==> AllKnown(needs, ids)
  {
    for i := 0 to |needs|
      invariant forall k :: 0 <= k < i ==> Known(needs[k], ids)
    {
      var known := CheckKnown(needs[i], ids);
      if !known {
        return false;
      }
    }
    return true;
  }

  lemma ValidIs(doc: Document)
    ensures Valid(doc) <==>
      && ValidTop(doc.fields) && doc.packages.Some? && doc.packages.value != []
      && Keyed(doc.packages.value) && AllPass(doc.packages.value) && AllMet(doc.packages.value)
  {
  }

  /** The loops over the packages of a document. */
  method ValidatePackages(packages: seq<Package>) returns (ok: bool)
    ensures ok <==> Keyed(packages) && AllPass(packages) && AllMet(packages)
  {
    VerdictsDecide(packages);
    forall id ensures Some(id) in NamesOf(packages) <==> Has(packages, id) {
      NamesAreKeys(packages, id);
    }
    NamesAreKeys(packages, "");
    var ids, keyed := CollectNames(packages);
    if !keyed {
      return false;
    }
    ok := CheckNeeds(NeedLists(packages), ids);
    NeedListsDecide(packages, ids);
  }

  /** validateADPDocument */
  method Validate(doc: Document) returns (ok: bool)
    ensures ok <==> Valid(doc)
  {
    ValidIs(doc);
    if !ValidTop(doc.fields) || doc.packages.None? || doc.packages.value == [] {
      return false;
    }
    ok := ValidatePackages(doc.packages.value);
  }

  /** The search of bindADPArtifact for the one package with a role. */
  method FindBound(list: seq<Package>, role: string) returns (index: Option<nat>, several: bool)
    ensures several <==> |Bound(list, role)| > 1
    ensures !several ==> Bound(list, role) == if index.Some? then [index.value] else []
    ensures index.Some? ==> index.value < |list| && list[index.value].Spec?
  {
    index := None;
    for i := 0 to |list|
      invariant Bound(list[..i], role) == if index.Some? then [index.value] else []
      invariant index.Some? ==> index.value < i && list[index.value].Spec?
    {
      assert list[..i + 1][..i] == list[..i] && list[..i + 1][i] == list[i];
      if list[i].Spec? && BindingRole(list[i]) == role {
        if index.Some? {
          BoundGrows(list, i + 1, role);
          return index, true;
        }
        index := Some(i);
      }
    }
    assert list[..|list|] == list;
    return index, false;
  }

  class Draft {
    var fields: Fields
    var packages: Option<seq<Package>>

    function View(): Document
      reads this
    {
      Document(fields, packages)
    }

    constructor (doc: Document)
      ensures View() == doc
    {
      fields, packages := doc.fields, doc.packages;
    }

    /** bindADPArtifact */
    method BindArtifact(upload: Upload) returns (ok: bool)
      modifies this
      ensures ok <==> Bind(old(View()), upload).Some?
      ensures View() == if ok then Bind(old(View()), upload).value else old(View())
    {
      if packages.None? {
        return false;
      }
      var list := packages.value;
      var index, several := FindBound(list, upload.role);
      if several || index.None? || upload.keys == [] {
        return false;
      }
      var p := list[index.value];
      var platforms := MergeStringList(PlatformList(p), upload.keys);
      packages := Some(list[index.value := Spec(p.rest, Some(SetKeys(p.from, upload.keys, Str(upload.url))),
                                                Some(SetKeys(p.sha256, upload.keys, Str(upload.sha256))),
                                                Some(SetKeys(p.archive, upload.keys, ArchiveSpec(upload))),
                                                Some(platforms))]);
      return true;
    }

    /** The field loop of mergeADPDocuments. */
    method MergeFields(current: Fields) returns (ok: bool)
      modifies this`fields
      ensures ok <==> Agree(old(fields), current)
      ensures ok ==> fields == old(fields) + current
      ensures forall key :: key in old(fields) ==> key in fields && fields[key] == old(fields)[key]
      ensures forall key :: key in fields && key !in old(fields) ==> key in current && fields[key] == current[key]
    {
      var base := fields;
      var todo := current.Keys;
      while todo != {}
        invariant todo <= current.Keys
        invariant forall key :: key in current.Keys - todo ==>
          (key in base ==> base[key] == current[key]) && key in fields && fields[key] == current[key]
        invariant forall key :: key in todo || key !in current ==>
          (key in fields <==> key in base) && (key in base ==> fields[key] == base[key])
        decreases todo
      {
        var key :| key in todo;
        if key in fields && fields[key] != current[key] {
          return false;
        }
        if key !in fields {
          fields := fields[key := current[key]];
        }
        todo := todo - {key};
      }
      assert fields == base + current;
      return true;
    }

    /** The package loop of mergeADPDocuments; the index is that of the prior packages. */
    method MergePackages(current: seq<Package>) returns (ok: bool)
      requires packages.Some?
      modifies this`packages
      ensures ok <==> AllNamed(old(packages).value) && MergeAll(old(packages).value, current).Some?
      ensures ok ==> packages == MergeAll(old(packages).value, current)
    {
      var original := packages.value;
      var merged := original;
      for i := 0 to |original|
        invariant forall k :: 0 <= k < i ==> PackageId(original[k]).Some?
      {
        if PackageId(original[i]).None? {
          return false;
        }
      }
      for i := 0 to |current|
        invariant MergeAll(original, current[..i]) == Some(merged)
      {
        MergeAllPrefix(original, current, i);
        var id := PackageId(current[i]);
        if id.None? {
          return false;
        }
        var index := IndexOf(original, id.value);
        if index.None? {
          merged := merged + [current[i]];
          continue;
        }
        var p, ok := MergeAdpPackage(merged[index.value], current[i]);
        if !ok {
          return false;
        }
        merged := merged[index.value := p];
      }
      assert current[..|current|] == current;
      packages := Some(merged);
      return true;
    }

    /** mergeADPDocuments: this manifest is the prior one. After a conflict its
        contents do not matter, for the caller gives up on it. */
    method MergeCurrent(current: Document) returns (ok: bool)
      modifies this
      ensures ok <==> Merge(old(View()), current).Some?
      ensures ok ==> View() == Merge(old(View()), current).value
    {
      if packages.None? || current.packages.None? {
        return false;
      }
      ok := MergeFields(current.fields);
      if ok {
        ok := MergePackages(current.packages.value);
      }
    }
  }

  /** One more package at most adds a position. */
  lemma {:induction false} BoundGrows(list: seq<Package>, i: nat, role: string)
    requires i <= |list|
    ensures |Bound(list[..i], role)| <= |Bound(list, role)|
    decreases |list|
  {
    if i < |list| {
      var n := |list| - 1;
      assert list[..n][..i] == list[..i];
      BoundGrows(list[..n], i, role);
    } else {
      assert list[..i] == list;
    }
  }

  lemma MergeAllStuck(original: seq<Package>, current: seq<Package>)
    requires current != [] && MergeAll(original, current[..|current| - 1]).None?
    ensures MergeAll(original, current).None?
  {
  }

  /** A merge that fails on a prefix fails on the whole list. */
  lemma {:induction false} MergeAllFails(original: seq<Package>, current: seq<Package>, i: nat)
    requires i <= |current| && MergeAll(original, current[..i]).None?
    ensures MergeAll(original, current).None?
    decreases |current|
  {
    if i == |current| {
      assert current[..i] == current;
    } else {
      var init := current[..|current| - 1];
      assert init[..i] == current[..i];
      MergeAllFails(original, init, i);
      MergeAllStuck(original, current);
    }
  }

  lemma MergeAllPrefix(original: seq<Package>, current: seq<Package>, i: nat)
    requires i < |current|
    ensures MergeAll(original, current[..i + 1]) == match MergeAll(original, current[..i])
      case None => None
      case Some(merged) => MergeOne(original, merged, current[i])
    ensures MergeAll(original, current[..i + 1]).None? ==> MergeAll(original, current).None?
  {
    var prefix := current[..i + 1];
    assert prefix[..|prefix| - 1] == current[..i] && prefix[|prefix| - 1] == current[i];
    if MergeAll(original, prefix).None? {
      MergeAllFails(original, current, i + 1);
    }
  }
}

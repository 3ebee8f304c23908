/** What a merge of two manifests consists of, and when it keeps them valid. */
module AdpMerge {
  import opened Text
  import opened Adp

  // ------------------------------------------------------- shape of a merge

  lemma LookupBefore(packages: seq<Package>, id: string)
    requires packages != [] && PackageId(packages[|packages| - 1]) != Some(id)
    ensures IndexOf(packages, id) == IndexOf(packages[..|packages| - 1], id)
  {
  }

  /** The last package of a name is the one found. */
  lemma {:induction false} IndexOfLast(packages: seq<Package>, i: nat, id: string)
    requires i < |packages| && PackageId(packages[i]) == Some(id)
    requires forall j :: i < j < |packages| ==> PackageId(packages[j]) != Some(id)
    ensures IndexOf(packages, id) == Some(i)
  {
    var init := packages[..|packages| - 1];
    if i < |packages| - 1 {
      assert init[i] == packages[i];
      assert forall j :: i < j < |init| ==> init[j] == packages[j];
      LookupBefore(packages, id);
      IndexOfLast(init, i, id);
    }
  }

  lemma IndexOfKeyed(packages: seq<Package>, i: nat)
    requires Keyed(packages) && i < |packages|
    ensures IndexOf(packages, PackageId(packages[i]).value) == Some(i)
  {
    IndexOfLast(packages, i, PackageId(packages[i]).value);
  }

  lemma HasIndex(packages: seq<Package>, id: string)
    ensures Has(packages, id) <==> IndexOf(packages, id).Some?
  {
  }

  /** The packages of the current document the prior one does not know, in order. */
  function Unshared(prior: seq<Package>, current: seq<Package>): seq<Package>
    requires AllNamed(current)
  {
    if current == [] then []
    else
      var n := |current| - 1;
      Unshared(prior, current[..n])
      + if IndexOf(prior, PackageId(current[n]).value).None? then [current[n]] else []
  }

  /** What a prior package has become. */
  predicate Touched(p: Package, current: seq<Package>, m: Package)
    requires PackageId(p).Some?
  {
    match IndexOf(current, PackageId(p).value)
    case None => m == p
    case Some(j) => MergePackage(p, current[j]) == Some(m)
  }

  ghost predicate Shaped(prior: seq<Package>, current: seq<Package>, merged: seq<Package>)
    requires AllNamed(prior) && AllNamed(current)
  {
    && |merged| >= |prior|
    && (forall i :: 0 <= i < |prior| ==> Touched(prior[i], current, merged[i]))
    && merged[|prior|..] == Unshared(prior, current)
  }

  lemma NoEarlierNamesake(packages: seq<Package>, n: nat, id: string)
    requires Keyed(packages) && n < |packages| && PackageId(packages[n]) == Some(id)
    ensures IndexOf(packages[..n], id).None?
  {
    var init := packages[..n];
    forall j | 0 <= j < n ensures PackageId(init[j]) != Some(id) {
      assert init[j] == packages[j];
    }
    HasIndex(init, id);
  }

  lemma LookupLast(current: seq<Package>, n: nat, id: string)
    requires Keyed(current) && |current| == n + 1 && PackageId(current[n]) == Some(id)
    ensures IndexOf(current, id) == Some(n) && IndexOf(current[..n], id).None?
  {
    NoEarlierNamesake(current, n, id);
    IndexOfKeyed(current, n);
  }

  /** A package that is not the namesake of the last one is met as before. */
  lemma TouchedBefore(p: Package, current: seq<Package>, m: Package)
    requires PackageId(p).Some? && current != [] && PackageId(current[|current| - 1]) != PackageId(p)
    requires Touched(p, current[..|current| - 1], m)
    ensures Touched(p, current, m)
  {
    LookupBefore(current, PackageId(p).value);
    var j := IndexOf(current, PackageId(p).value);
    assert j.Some? ==> current[..|current| - 1][j.value] == current[j.value];
  }

  /** The namesake of the last package was untouched until now. */
  lemma TouchedNow(p: Package, current: seq<Package>, m: Package)
    requires Keyed(current) && current != [] && PackageId(current[|current| - 1]) == PackageId(p)
    requires Touched(p, current[..|current| - 1], m)
    ensures m == p
    ensures forall q :: Touched(p, current, q) <==> MergePackage(p, current[|current| - 1]) == Some(q)
  {
    LookupLast(current, |current| - 1, PackageId(p).value);
  }

  lemma ShapeStep(prior: seq<Package>, current: seq<Package>, merged: seq<Package>)
    requires Keyed(prior) && Keyed(current) && current != []
    requires Shaped(prior, current[..|current| - 1], merged)
    ensures var last := current[|current| - 1];
      var k := IndexOf(prior, PackageId(last).value);
      && (k.Some? ==> merged[k.value] == prior[k.value])
      && var next := MergeOne(prior, merged, last);
        && (next.None? <==> k.Some? && MergePackage(prior[k.value], last).None?)
        && (next.Some? ==> Shaped(prior, current, next.value))
  {
    var n := |current| - 1;
    var last := current[n];
    var k := IndexOf(prior, PackageId(last).value);
    forall i | 0 <= i < |prior| && k != Some(i) ensures Touched(prior[i], current, merged[i]) {
      IndexOfKeyed(prior, i);
      TouchedBefore(prior[i], current, merged[i]);
    }
    if k.Some? {
      TouchedNow(prior[k.value], current, merged[k.value]);
      var p := MergePackage(prior[k.value], last);
      if p.Some? {
        var next := merged[k.value := p.value];
        assert next[|prior|..] == merged[|prior|..];
        assert Touched(prior[k.value], current, next[k.value]);
      }
    } else {
      var next := merged + [last];
      assert next[|prior|..] == merged[|prior|..] + [last];
      assert forall i :: 0 <= i < |prior| ==> next[i] == merged[i];
    }
  }

  /** A merge of keyed documents is the prior packages, each met by its namesake,
      followed by the unknown ones; it fails exactly when two namesakes conflict. */
  lemma {:induction false} MergeAllShape(prior: seq<Package>, current: seq<Package>)
    requires Keyed(prior) && Keyed(current)
    ensures MergeAll(prior, current).Some? ==> Shaped(prior, current, MergeAll(prior, current).value)
    ensures MergeAll(prior, current).Some? <==>
      forall j :: 0 <= j < |current| ==> Meets(prior, current[j])
    decreases |current|
  {
    if current != [] {
      var init := current[..|current| - 1];
      MergeAllShape(prior, init);
      assert forall j :: 0 <= j < |init| ==> init[j] == current[j];
      if MergeAll(prior, init).Some? {
        ShapeStep(prior, current, MergeAll(prior, init).value);
      }
    }
  }

  /** The package can be merged into its namesake, if there is one. */
  predicate Meets(prior: seq<Package>, current: Package)
    requires PackageId(current).Some?
  {
    var k := IndexOf(prior, PackageId(current).value);
    k.Some? ==> MergePackage(prior[k.value], current).Some?
  }

  lemma KeyedExtend(packages: seq<Package>, p: Package)
    requires Keyed(packages) && PackageId(p).Some?
    requires forall q :: q in packages ==> PackageId(q) != PackageId(p)
    ensures Keyed(packages + [p])
  {
    var all := packages + [p];
    forall i, j | 0 <= i < j < |all| ensures PackageId(all[i]) != PackageId(all[j]) {
      assert all[i] in packages;
    }
  }

  lemma LastOrBefore(packages: seq<Package>)
    requires packages != []
    ensures forall p :: p in packages <==> p in packages[..|packages| - 1] || p == packages[|packages| - 1]
  {
    assert packages == packages[..|packages| - 1] + [packages[|packages| - 1]];
  }

  lemma {:induction false} UnsharedAre(prior: seq<Package>, current: seq<Package>)
    requires AllNamed(current)
    ensures forall p :: p in Unshared(prior, current) <==> p in current && IndexOf(prior, PackageId(p).value).None?
    decreases |current|
  {
    if current != [] {
      var n := |current| - 1;
      UnsharedAre(prior, current[..n]);
      LastOrBefore(current);
    }
  }

  lemma LastIsNew(current: seq<Package>, q: Package)
    requires Keyed(current) && current != [] && q in current[..|current| - 1]
    ensures PackageId(q) != PackageId(current[|current| - 1])
  {
    var j :| 0 <= j < |current| - 1 && current[..|current| - 1][j] == q;
    assert current[j] == q;
  }

  lemma {:induction false} UnsharedKeyed(prior: seq<Package>, current: seq<Package>)
    requires Keyed(current)
    ensures Keyed(Unshared(prior, current))
    decreases |current|
  {
    if current != [] {
      var n := |current| - 1;
      var init := current[..n];
      UnsharedKeyed(prior, init);
      UnsharedAre(prior, init);
      forall q | q in Unshared(prior, init) ensures PackageId(q) != PackageId(current[n]) {
        LastIsNew(current, q);
      }
      KeyedExtend(Unshared(prior, init), current[n]);
    }
  }

  lemma UnsharedMembers(prior: seq<Package>, current: seq<Package>)
    requires Keyed(current)
    ensures Keyed(Unshared(prior, current))
    ensures forall p :: p in Unshared(prior, current) <==> p in current && !Has(prior, PackageId(p).value)
  {
    UnsharedKeyed(prior, current);
    UnsharedAre(prior, current);
    forall p | p in current ensures Has(prior, PackageId(p).value) <==> IndexOf(prior, PackageId(p).value).Some? {
      HasIndex(prior, PackageId(p).value);
    }
  }

  // ------------------------------------------------------------ identifiers

  /** Merging namesakes keeps the identifier, except that a provider mapping loses it. */
  lemma MergedId(p: Package, c: Package)
    requires PackageId(p).Some? && PackageId(c) == PackageId(p) && MergePackage(p, c).Some?
    ensures PackageId(MergePackage(p, c).value) == if ProviderMapping(p) then None else PackageId(p)
    ensures ProviderMapping(p) <==> ProviderMapping(c)
    ensures !ProviderMapping(MergePackage(p, c).value)
  {
  }

  /** The document declares a provider mapping of this name. */
  ghost predicate MapsName(packages: seq<Package>, id: string) {
    exists i :: 0 <= i < |packages| && ProviderMapping(packages[i]) && PackageId(packages[i]) == Some(id)
  }

  /** A provider mapping both documents declare. */
  ghost predicate SharedMapping(prior: seq<Package>, current: seq<Package>) {
    exists id :: MapsName(prior, id) && MapsName(current, id)
  }

  lemma SharedNames(prior: seq<Package>, current: seq<Package>, merged: seq<Package>, i: nat)
    requires Keyed(prior) && Keyed(current) && Shaped(prior, current, merged) && i < |prior|
    requires !SharedMapping(prior, current)
    ensures PackageId(merged[i]) == PackageId(prior[i])
  {
    var j := IndexOf(current, PackageId(prior[i]).value);
    if j.Some? {
      MergedId(prior[i], current[j.value]);
      UnsharedPair(prior, current, i, j.value);
    }
  }

  /** Namesakes are not both provider mappings. */
  lemma UnsharedPair(prior: seq<Package>, current: seq<Package>, i: nat, j: nat)
    requires !SharedMapping(prior, current) && i < |prior| && j < |current|
    requires PackageId(prior[i]).Some? && PackageId(prior[i]) == PackageId(current[j])
    ensures !(ProviderMapping(prior[i]) && ProviderMapping(current[j]))
  {
    var id := PackageId(prior[i]).value;
    assert ProviderMapping(prior[i]) ==> MapsName(prior, id);
    assert ProviderMapping(current[j]) ==> MapsName(current, id);
  }

  /** A merge declares the provider mappings either side declares. */
  lemma MergedMaps(prior: seq<Package>, current: seq<Package>, merged: seq<Package>, id: string)
    requires Keyed(prior) && Keyed(current) && Shaped(prior, current, merged) && !SharedMapping(prior, current)
    ensures MapsName(merged, id) <==> MapsName(prior, id) || MapsName(current, id)
  {
    if MapsName(merged, id) {
      var k :| 0 <= k < |merged| && ProviderMapping(merged[k]) && PackageId(merged[k]) == Some(id);
      MergedMapsOrigin(prior, current, merged, k, id);
    }
    if MapsName(prior, id) {
      var i :| 0 <= i < |prior| && ProviderMapping(prior[i]) && PackageId(prior[i]) == Some(id);
      PriorMappingKept(prior, current, merged, i);
    }
    if MapsName(current, id) {
      var j :| 0 <= j < |current| && ProviderMapping(current[j]) && PackageId(current[j]) == Some(id);
      CurrentMappingKept(prior, current, merged, j, id);
    }
  }

  lemma MergedMapsOrigin(prior: seq<Package>, current: seq<Package>, merged: seq<Package>, k: nat, id: string)
    requires Keyed(prior) && Keyed(current) && Shaped(prior, current, merged)
    requires k < |merged| && ProviderMapping(merged[k]) && PackageId(merged[k]) == Some(id)
    ensures MapsName(prior, id) || MapsName(current, id)
  {
    if k < |prior| {
      var j := IndexOf(current, PackageId(prior[k]).value);
      if j.Some? {
        MergedId(prior[k], current[j.value]);
      }
    } else {
      UnsharedMembers(prior, current);
      assert merged[|prior|..][k - |prior|] == merged[k];
      assert merged[k] in current;
    }
  }

  lemma PriorMappingKept(prior: seq<Package>, current: seq<Package>, merged: seq<Package>, i: nat)
    requires Keyed(prior) && Keyed(current) && Shaped(prior, current, merged) && !SharedMapping(prior, current)
    requires i < |prior| && ProviderMapping(prior[i])
    ensures merged[i] == prior[i]
  {
    var j := IndexOf(current, PackageId(prior[i]).value);
    if j.Some? {
      UnsharedPair(prior, current, i, j.value);
      MergedId(prior[i], current[j.value]);
    }
  }

  lemma CurrentMappingKept(prior: seq<Package>, current: seq<Package>, merged: seq<Package>, j: nat, id: string)
    requires Keyed(prior) && Keyed(current) && Shaped(prior, current, merged) && !SharedMapping(prior, current)
    requires j < |current| && ProviderMapping(current[j]) && PackageId(current[j]) == Some(id)
    ensures MapsName(merged, id)
  {
    UnsharedMembers(prior, current);
    if Has(prior, id) {
      var i :| 0 <= i < |prior| && PackageId(prior[i]) == Some(id);
      IndexOfKeyed(current, j);
      UnsharedPair(prior, current, i, j);
      MergedId(prior[i], current[j]);
    } else {
      assert current[j] in merged[|prior|..];
      var k :| 0 <= k < |merged| - |prior| && merged[|prior|..][k] == current[j];
      assert merged[|prior| + k] == current[j];
    }
  }

  /** Without a shared mapping the result is keyed, and names what either side names. */
  lemma MergedKeyed(prior: seq<Package>, current: seq<Package>, merged: seq<Package>)
    requires Keyed(prior) && Keyed(current) && Shaped(prior, current, merged) && !SharedMapping(prior, current)
    ensures Keyed(merged)
    ensures forall id :: Has(merged, id) <==> Has(prior, id) || Has(current, id)
  {
    var tail := Unshared(prior, current);
    UnsharedMembers(prior, current);
    forall i | 0 <= i < |prior|
      ensures PackageId(merged[i]) == PackageId(prior[i])
    {
      SharedNames(prior, current, merged, i);
    }
    forall i | |prior| <= i < |merged|
      ensures merged[i] == tail[i - |prior|] && merged[i] in current && !Has(prior, PackageId(merged[i]).value)
    {
      assert merged[|prior|..][i - |prior|] == merged[i];
      assert merged[i] in tail;
    }
    forall id ensures Has(merged, id) <==> Has(prior, id) || Has(current, id) {
      NamesCovered(prior, current, merged, id);
    }
  }

  lemma NamesCovered(prior: seq<Package>, current: seq<Package>, merged: seq<Package>, id: string)
    requires Keyed(prior) && Keyed(current) && |merged| >= |prior| && merged[|prior|..] == Unshared(prior, current)
    requires forall i :: 0 <= i < |prior| ==> PackageId(merged[i]) == PackageId(prior[i])
    requires forall i :: |prior| <= i < |merged| ==> merged[i] in current
    ensures Has(merged, id) <==> Has(prior, id) || Has(current, id)
  {
    UnsharedMembers(prior, current);
    if Has(prior, id) {
      var i :| 0 <= i < |prior| && PackageId(prior[i]) == Some(id);
      assert PackageId(merged[i]) == Some(id);
    } else if Has(current, id) {
      var j :| 0 <= j < |current| && PackageId(current[j]) == Some(id);
      assert current[j] in merged[|prior|..];
      var i :| 0 <= i < |merged| - |prior| && merged[|prior|..][i] == current[j];
      assert PackageId(merged[|prior| + i]) == Some(id);
    }
  }

  // ---------------------------------------------------------------- validity

  lemma JoinedFieldValid(p: Option<Fields>, c: Option<Fields>)
    requires JoinField(p, c).Some?
    ensures ValidPlatforms(p) && ValidPlatforms(c) ==> ValidPlatforms(JoinField(p, c).value)
    ensures ValidArchives(p) && ValidArchives(c) ==> ValidArchives(JoinField(p, c).value)
  {
  }

  /** Two valid namesakes that merge, and are no provider mapping, merge to a valid package. */
  lemma MergedPackageValid(p: Package, c: Package)
    requires ValidPackage(p) && ValidPackage(c) && !ProviderMapping(p)
    requires PackageId(p).Some? && PackageId(c) == PackageId(p) && MergePackage(p, c).Some?
    ensures ValidPackage(MergePackage(p, c).value)
  {
    if p.Spec? && c.Spec? {
      MergedId(p, c);
      JoinedFieldValid(p.from, c.from);
      JoinedFieldValid(p.sha256, c.sha256);
      JoinedFieldValid(p.archive, c.archive);
      MergedBinaryValid(p, c);
    }
  }

  lemma MergedBinaryValid(p: Package, c: Package)
    requires p.Spec? && c.Spec? && ValidBinary(p) && ValidBinary(c) && MergePackage(p, c).Some?
    ensures ValidBinary(MergePackage(p, c).value)
  {
  }

  lemma MergedTopValid(prior: Fields, current: Fields)
    requires Agree(prior, current) && ValidTop(prior) && ValidTop(current)
    ensures ValidTop(prior + current)
  {
    assert FieldOf(prior + current, "hooks")
      == if "hooks" in current then FieldOf(current, "hooks") else FieldOf(prior, "hooks");
  }

  /** What a package needs does not change when it is merged. */
  lemma MergedNeeds(p: Package, c: Package, packages: seq<Package>)
    requires MergePackage(p, c).Some?
    ensures NeedsMet(MergePackage(p, c).value, packages) <==> NeedsMet(p, packages)
  {
  }

  lemma PieceValid(prior: seq<Package>, current: seq<Package>, merged: seq<Package>, i: nat)
    requires Keyed(prior) && Keyed(current) && Shaped(prior, current, merged) && !SharedMapping(prior, current)
    requires forall k :: 0 <= k < |prior| ==> ValidPackage(prior[k]) && NeedsMet(prior[k], prior)
    requires forall k :: 0 <= k < |current| ==> ValidPackage(current[k]) && NeedsMet(current[k], current)
    requires i < |merged|
    ensures ValidPackage(merged[i]) && NeedsMet(merged[i], merged)
  {
    MergedKeyed(prior, current, merged);
    if i < |prior| {
      var j := IndexOf(current, PackageId(prior[i]).value);
      if j.Some? {
        UnsharedPair(prior, current, i, j.value);
        MergedId(prior[i], current[j.value]);
        MergedPackageValid(prior[i], current[j.value]);
        MergedNeeds(prior[i], current[j.value], merged);
      }
      assert NeedsMet(prior[i], merged);
    } else {
      UnsharedMembers(prior, current);
      assert merged[|prior|..][i - |prior|] == merged[i];
      assert merged[i] in Unshared(prior, current);
    }
  }

  /** Merging two valid manifests gives a valid one exactly when they share no
      provider mapping: the merge adds a platforms field to whatever both declare. */
  lemma MergePreservesValidity(prior: Document, current: Document)
    requires Valid(prior) && Valid(current) && Merge(prior, current).Some?
    ensures Valid(Merge(prior, current).value) <==> !SharedMapping(prior.packages.value, current.packages.value)
  {
    var p, c := prior.packages.value, current.packages.value;
    var merged := Merge(prior, current).value.packages.value;
    MergeAllShape(p, c);
    MergedTopValid(prior.fields, current.fields);
    if SharedMapping(p, c) {
      SharedMappingBreaks(p, c, merged);
    } else {
      MergedKeyed(p, c, merged);
      forall i | 0 <= i < |merged| ensures ValidPackage(merged[i]) && NeedsMet(merged[i], merged) {
        PieceValid(p, c, merged, i);
      }
    }
  }

  lemma SharedMappingBreaks(prior: seq<Package>, current: seq<Package>, merged: seq<Package>)
    requires Keyed(prior) && Keyed(current) && Shaped(prior, current, merged) && SharedMapping(prior, current)
    ensures !Keyed(merged)
  {
    var id :| MapsName(prior, id) && MapsName(current, id);
    var i :| 0 <= i < |prior| && ProviderMapping(prior[i]) && PackageId(prior[i]) == Some(id);
    var j :| 0 <= j < |current| && ProviderMapping(current[j]) && PackageId(current[j]) == Some(id);
    SharedPairBreaks(prior, current, merged, i, j);
  }

  lemma SharedPairBreaks(prior: seq<Package>, current: seq<Package>, merged: seq<Package>, i: nat, j: nat)
    requires Keyed(prior) && Keyed(current) && Shaped(prior, current, merged) && i < |prior| && j < |current|
    requires ProviderMapping(prior[i]) && PackageId(prior[i]) == PackageId(current[j])
    ensures PackageId(merged[i]).None?
  {
    IndexOfKeyed(current, j);
    MergedId(prior[i], current[j]);
  }

  /** So the second validation of the publish pipeline rejects nothing but a shared
      provider mapping, as long as what is stored is valid. */
  lemma SecondValidationDecides(doc: Document, stored: Document, upload: Option<Upload>)
    requires Valid(stored)
    requires Prepared(doc, upload).Some? && Valid(Prepared(doc, upload).value)
    ensures var current := Prepared(doc, upload).value;
      Normalize(doc, Some(stored), upload)
      == if Merge(stored, current).Some? && !SharedMapping(stored.packages.value, current.packages.value)
         then Merge(stored, current) else None
  {
    var current := Prepared(doc, upload).value;
    if Merge(stored, current).Some? {
      MergePreservesValidity(stored, current);
    }
  }
}

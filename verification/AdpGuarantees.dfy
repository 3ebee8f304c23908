/** What whoever reads an accepted manifest can rely on, and that acceptance asks for no
    more: validation is exactly the condition spelled out here, field by field. */
module AdpGuarantees {
  import opened Text
  import opened Market
  import opened Adp
  import opened AdpMerge
  import opened AdpJoin
  import opened AdpUploads

  // --------------------------------------------------------------- platforms

  datatype Os = Linux | MacOs | Windows
  datatype Arch = X64 | Arm64

  function OsName(os: Os): string { match os case Linux => "linux" case MacOs => "macos" case Windows => "windows" }

  function ArchName(arch: Arch): string { match arch case X64 => "x64" case Arm64 => "arm64" }

  function KeyName(os: Os, arch: Arch): string { OsName(os) + "-" + ArchName(arch) }

  ghost predicate KnownKey(key: string) { exists os: Os, arch: Arch :: key == KeyName(os, arch) }

  lemma KeysAreKnown(key: string)
    ensures key in PLATFORM_KEYS <==> KnownKey(key)
  {
    assert KeyName(Linux, X64) == "linux-x64" && KeyName(Linux, Arm64) == "linux-arm64";
    assert KeyName(MacOs, X64) == "macos-x64" && KeyName(MacOs, Arm64) == "macos-arm64";
    assert KeyName(Windows, X64) == "windows-x64" && KeyName(Windows, Arm64) == "windows-arm64";
    if os: Os, arch: Arch :| key == KeyName(os, arch) {
      match os
      case Linux => match arch { case X64 => case Arm64 => }
      case MacOs => match arch { case X64 => case Arm64 => }
      case Windows => match arch { case X64 => case Arm64 => }
    }
  }

  // ------------------------------------------------------------------- names

  predicate IsText(value: Value) { value.Str? && TrimSpace(value.text) != "" }

  predicate TextAt(fields: Fields, key: string) { key in fields && IsText(fields[key]) }

  predicate IsProvider(name: string) {
    var n := ToLower(name);
    n == "apt" || n == "dnf" || n == "pacman" || n == "apk" || n == "zypper" || n == "brew" || n == "winget"
    || n == "scoop" || n == "choco"
  }

  predicate IsExtension(name: string) { |name| >= 2 && name[0] == 'x' && name[1] == '-' }

  /** The fields of a package whose value is the same on every platform. */
  predicate IsCommonField(name: string) {
    name == "id" || name == "version" || name == "expose" || name == "needs" || name == "env" || name == "configs"
    || name == "hooks"
  }

  predicate IsPlatformField(name: string) {
    name == "from" || name == "sha256" || name == "archive" || name == "platforms"
  }

  predicate IsKnownField(name: string) {
    IsCommonField(name) || IsPlatformField(name) || IsProvider(name) || IsExtension(name)
  }

  lemma KnownFields(name: string)
    ensures Provider(name) <==> IsProvider(name)
    ensures Extension(name) <==> IsExtension(name)
    ensures name in PACKAGE_FIELDS <==> IsCommonField(name) || IsPlatformField(name)
  {
    assert Extension(name) ==> |name| >= 2 && name[0] == "x-"[0] && name[1] == "x-"[1];
    if IsExtension(name) {
      assert name[..2] == "x-";
    }
  }

  /** A package that is nothing but a name with the providers it goes by. */
  predicate IsMapping(p: Package) {
    && p.Spec? && p.from.None? && p.sha256.None? && p.archive.None? && p.platforms.None?
    && exists name | name in p.rest :: p.rest.Keys == {name} && !IsKnownField(name)
  }

  lemma Mappings(p: Package)
    ensures ProviderMapping(p) <==> IsMapping(p)
  {
    if ProviderMapping(p) {
      var name := OnlyKey(p.rest);
      KnownFields(name);
      OnlyKeys(p.rest, name);
    }
    if IsMapping(p) {
      var name :| name in p.rest && p.rest.Keys == {name} && !IsKnownField(name);
      KnownFields(name);
      assert |p.rest| == |p.rest.Keys| == 1;
    }
  }

  lemma OnlyKeys(fields: Fields, name: string)
    requires |fields| == 1 && name in fields
    ensures fields.Keys == {name}
  {
    forall other | other in fields.Keys ensures other == name {
      OneKey(fields, other, name);
    }
  }

  /** A package is named by the text before its first at sign, by its identifier, or by
      its one field. */
  ghost predicate Named(p: Package, name: string) {
    match p
    case Plain(Str(text)) =>
      name != "" && '@' !in name
      && (TrimSpace(text) == name || exists rest :: TrimSpace(text) == name + ['@'] + rest)
    case Plain(_) => false
    case Spec(rest, _, _, _, _) =>
      if TextAt(rest, "id") then name == TrimSpace(rest["id"].text)
      else IsMapping(p) && name in rest
  }

  lemma CutIs(text: string, name: string)
    ensures Cut(text, '@').0 == name
      <==> '@' !in name && (text == name || exists rest :: text == name + ['@'] + rest)
  {
    CutParts(text, '@');
    if '@' !in name {
      if text == name {
        CutPrefix(name, "", '@');
      } else if rest :| text == name + ['@'] + rest {
        CutPrefix(name, rest, '@');
      }
    }
  }

  lemma NamesAre(p: Package, name: string)
    ensures PackageId(p) == Some(name) <==> Named(p, name)
  {
    match p
    case Plain(Str(text)) => CutIs(TrimSpace(text), name);
    case Plain(_) =>
    case Spec(rest, _, _, _, _) =>
      Mappings(p);
      if ProviderMapping(p) {
        OnlyKeys(rest, OnlyKey(rest));
      }
  }

  // ------------------------------------------------------------------- hooks

  predicate IsRunner(name: string) { name == "exec" || name == "sh" || name == "pwsh" || name == "cmd" }

  predicate AllText(value: Value) { value.List? && forall i :: 0 <= i < |value.items| ==> IsText(value.items[i]) }

  /** What a runner is given: a command line of at least one word, or a text. */
  predicate Runs(runner: string, value: Value) {
    if runner == "exec" then AllText(value) && |value.items| > 0 else IsText(value)
  }

  predicate OneOf(value: Value, allowed: set<string>) {
    AllText(value) && forall i :: 0 <= i < |value.items| ==> ToLower(TrimSpace(value.items[i].text)) in allowed
  }

  ghost predicate KnownKeys(value: Value) {
    AllText(value) && forall i :: 0 <= i < |value.items| ==> KnownKey(ToLower(TrimSpace(value.items[i].text)))
  }

  ghost predicate Setting(name: string, value: Value) {
    match name
    case "allow_failure" => value.Scalar? && value.kind == "bool"
    case "timeout" => value.Scalar? && value.positiveInt
    case "env" => value.Map? && forall v :: v in value.fields ==> TrimSpace(v) != "" && value.fields[v].Str?
    case "cwd" => value.Str?
    case "platforms" => KnownKeys(value)
    case "os" => OneOf(value, {"linux", "macos", "windows"})
    case "arch" => OneOf(value, {"x64", "arm64"})
    case _ => false
  }

  ghost predicate RunsOneThing(fields: Fields, runner: string) {
    runner in fields && IsRunner(runner) && forall other :: other in fields && IsRunner(other) ==> other == runner
  }

  /** A hook runs one thing, and says nothing it should not. */
  ghost predicate HookSound(value: Value) {
    && value.Map?
    && (exists runner :: RunsOneThing(value.fields, runner))
    && forall name :: name in value.fields ==>
         if IsRunner(name) then Runs(name, value.fields[name]) else Setting(name, value.fields[name])
  }

  lemma EnumLists(value: Value, allowed: set<string>)
    ensures EnumList(value, allowed) <==> OneOf(value, allowed)
  {
    if value.List? && EnumList(value, allowed) {
      forall i | 0 <= i < |value.items|
        ensures IsText(value.items[i]) && ToLower(TrimSpace(value.items[i].text)) in allowed
      {
        assert value.items[i] in value.items;
      }
    }
  }

  lemma KeyLists(value: Value)
    ensures EnumList(value, PLATFORM_KEYS) <==> KnownKeys(value)
  {
    EnumLists(value, PLATFORM_KEYS);
    if AllText(value) {
      forall i | 0 <= i < |value.items|
        ensures ToLower(TrimSpace(value.items[i].text)) in PLATFORM_KEYS
          <==> KnownKey(ToLower(TrimSpace(value.items[i].text)))
      {
        KeysAreKnown(ToLower(TrimSpace(value.items[i].text)));
      }
    }
  }

  lemma CommandLines(value: Value)
    requires value.List?
    ensures (forall item :: item in value.items ==> NonBlankText(item)) <==> AllText(value)
  {
    if forall item :: item in value.items ==> NonBlankText(item) {
      forall i | 0 <= i < |value.items| ensures IsText(value.items[i]) {
        assert value.items[i] in value.items;
      }
    }
  }

  lemma HookFields(name: string, value: Value)
    ensures ValidHookField(name, value) <==> if IsRunner(name) then Runs(name, value) else Setting(name, value)
  {
    if name == "exec" {
      if value.List? {
        CommandLines(value);
      }
    } else if name == "platforms" {
      KeyLists(value);
    } else if name == "os" {
      EnumLists(value, {"linux", "macos", "windows"});
    } else if name == "arch" {
      EnumLists(value, {"x64", "arm64"});
    }
  }

  lemma OneOfThem(names: set<string>, name: string)
    requires |names| == 1 && name in names
    ensures names == {name}
  {
    assert |names - {name}| == 0;
    forall other | other in names ensures other == name {
      assert other !in names - {name};
    }
  }

  lemma RunnersOf(fields: Fields, name: string)
    ensures name in RUNNERS * fields.Keys <==> name in fields && IsRunner(name)
  {
  }

  lemma OneRunner(fields: Fields)
    ensures |RUNNERS * fields.Keys| == 1 <==> exists runner :: RunsOneThing(fields, runner)
  {
    var runners := RUNNERS * fields.Keys;
    forall name ensures name in runners <==> name in fields && IsRunner(name) {
      RunnersOf(fields, name);
    }
    OneElement(runners);
    if runner :| runners == {runner} {
      assert runner in runners;
      assert RunsOneThing(fields, runner);
    }
    if runner :| RunsOneThing(fields, runner) {
      assert runners == {runner};
    }
  }

  lemma OneElement(names: set<string>)
    ensures |names| == 1 <==> exists name :: names == {name}
  {
    if |names| == 1 {
      var name :| name in names;
      OneOfThem(names, name);
    }
  }

  lemma HooksAreSound(value: Value)
    ensures ValidHook(value) <==> HookSound(value)
  {
    if value.Map? {
      OneRunner(value.fields);
      forall name | name in value.fields
        ensures ValidHookField(name, value.fields[name])
          <==> if IsRunner(name) then Runs(name, value.fields[name]) else Setting(name, value.fields[name])
      {
        HookFields(name, value.fields[name]);
      }
    }
  }

  /** Hooks, where there are any, come in lists for the three phases. */
  ghost predicate HookListsSound(fields: Fields) {
    "hooks" in fields && fields["hooks"] != Null ==>
      && fields["hooks"].Map?
      && forall phase :: phase in fields["hooks"].fields ==>
           && (phase == "pre" || phase == "post" || phase == "verify")
           && HookListSound(fields["hooks"].fields[phase])
  }

  ghost predicate HookListSound(value: Value) {
    value.List? && forall i :: 0 <= i < |value.items| ==> HookSound(value.items[i])
  }

  lemma HookList(value: Value)
    requires value.List?
    ensures (forall hook :: hook in value.items ==> ValidHook(hook)) <==> HookListSound(value)
  {
    forall i | 0 <= i < |value.items| ensures ValidHook(value.items[i]) <==> HookSound(value.items[i]) {
      HooksAreSound(value.items[i]);
    }
    if HookListSound(value) {
      forall hook | hook in value.items ensures ValidHook(hook) {
        var i :| 0 <= i < |value.items| && value.items[i] == hook;
      }
    }
  }

  lemma HookLists(fields: Fields)
    ensures ValidHooks(FieldOf(fields, "hooks")) <==> HookListsSound(fields)
  {
    if "hooks" in fields && fields["hooks"].Map? {
      forall phase | phase in fields["hooks"].fields && fields["hooks"].fields[phase].List?
        ensures (forall hook :: hook in fields["hooks"].fields[phase].items ==> ValidHook(hook))
          <==> HookListSound(fields["hooks"].fields[phase])
      {
        HookList(fields["hooks"].fields[phase]);
      }
    }
  }

  // ------------------------------------------------------------------- paths

  /** Where one step of a path leads: nowhere, further down, or back up unless that
      leaves the start. */
  function StepFrom(depth: nat, name: string): Option<nat> {
    if name == "" || name == "." then Some(depth)
    else if name != ".." then Some(depth + 1)
    else if depth == 0 then None
    else Some(depth - 1)
  }

  /** How deep below its start a path leads, or nothing when it leaves it on the way. */
  function Walk(depth: nat, steps: seq<string>): Option<nat>
    decreases |steps|
  {
    if steps == [] then Some(depth)
    else
      var next := StepFrom(depth, steps[0]);
      if next.None? then None else Walk(next.value, steps[1..])
  }

  lemma {:induction false} WalkOn(depth: nat, steps: seq<string>, last: string)
    ensures Walk(depth, steps + [last])
      == match Walk(depth, steps) case None => None case Some(reached) => StepFrom(reached, last)
    decreases |steps|
  {
    if steps == [] {
      assert (steps + [last])[1..] == [];
    } else {
      assert (steps + [last])[1..] == steps[1..] + [last];
      if StepFrom(depth, steps[0]).Some? {
        WalkOn(StepFrom(depth, steps[0]).value, steps[1..], last);
      }
    }
  }

  lemma {:induction false} CleanedWalks(steps: seq<string>)
    ensures Walk(0, steps) == if Cleaned(steps, false).0 == 0 then Some(Cleaned(steps, false).1) else None
  {
    if steps != [] {
      var n := |steps| - 1;
      CleanedWalks(steps[..n]);
      WalkOn(0, steps[..n], steps[n]);
      assert steps == steps[..n] + [steps[n]];
    }
  }

  /** A managed path lies in the home directory: one that begins with a slash of its own is
      taken as it is, any other leads below the home without ever leaving it. */
  ghost predicate Managed(text: string) {
    && |text| >= 12 && text[..12] == "${ADP_HOME}/"
    && var path := text[12..];
       || (path != "" && path[0] == '/')
       || (Walk(0, Split(path, '/')).Some? && Walk(0, Split(path, '/')).value > 0)
  }

  ghost predicate PathsSound(fields: Fields) {
    "x-adp-managed-paths" in fields && fields["x-adp-managed-paths"] != Null ==>
      && fields["x-adp-managed-paths"].List?
      && forall i :: 0 <= i < |fields["x-adp-managed-paths"].items| ==>
           ManagedValue(fields["x-adp-managed-paths"].items[i])
  }

  ghost predicate ManagedValue(value: Value) { value.Str? && Managed(value.text) }

  predicate Allowed(value: Value) {
    value.Str? && MANAGED_ROOT <= value.text && !Escapes(value.text[|MANAGED_ROOT|..])
  }

  lemma ManagedIs(value: Value)
    ensures Allowed(value) <==> ManagedValue(value)
  {
    if value.Str? && MANAGED_ROOT <= value.text {
      CleanedWalks(Split(value.text[12..], '/'));
    }
  }

  lemma Paths(fields: Fields)
    ensures ValidPaths(FieldOf(fields, "x-adp-managed-paths")) <==> PathsSound(fields)
  {
    if "x-adp-managed-paths" in fields && fields["x-adp-managed-paths"].List? {
      var items := fields["x-adp-managed-paths"].items;
      forall i | 0 <= i < |items| ensures Allowed(items[i]) <==> ManagedValue(items[i]) {
        ManagedIs(items[i]);
      }
      if PathsSound(fields) {
        forall item | item in items ensures Allowed(item) {
          var i :| 0 <= i < |items| && items[i] == item;
        }
      }
      if ValidPaths(FieldOf(fields, "x-adp-managed-paths")) {
        forall i | 0 <= i < |items| ensures ManagedValue(items[i]) {
          assert items[i] in items;
        }
      }
    }
  }

  // ---------------------------------------------------------------- packages

  ghost predicate TextsByPlatform(fields: Fields) {
    forall key :: key in fields ==> KnownKey(ToLower(key)) && fields[key].Str?
  }

  predicate IsArchive(value: Value) {
    && value.Map? && "format" in value.fields && value.fields["format"].Str?
    && var format := TrimSpace(value.fields["format"].text); format == "zip" || format == "tar.gz" || format == "tgz"
  }

  predicate PostHooked(fields: Fields) {
    && "hooks" in fields && fields["hooks"].Map? && "post" in fields["hooks"].fields
    && fields["hooks"].fields["post"].List? && |fields["hooks"].fields["post"].items| > 0
  }

  ghost predicate ArchivesSound(field: Option<Fields>) {
    field.Some? ==> forall key :: key in field.value ==> KnownKey(ToLower(key)) && IsArchive(field.value[key])
  }

  /** A location, where there is one, comes with a version, a hash under the same key and a
      way to use what was fetched; keys are those of known platforms, in any case. */
  ghost predicate LocationsSound(p: Package)
    requires p.Spec?
  {
    && (p.from.Some? ==>
          && TextAt(p.rest, "version")
          && p.sha256.Some?
          && (("expose" in p.rest && p.rest["expose"].Map?) || PostHooked(p.rest))
          && forall key :: key in p.from.value ==> key in p.sha256.value)
    && (p.from.Some? ==> TextsByPlatform(p.from.value))
    && (p.sha256.Some? ==> TextsByPlatform(p.sha256.value))
    && ArchivesSound(p.archive)
  }

  /** Providers of a package go by a text or by nothing. */
  predicate ProvidersSound(value: Value) {
    value.Map? && forall name :: name in value.fields ==>
      IsProvider(name) && (value.fields[name].Null? || value.fields[name].Str?)
  }

  ghost predicate MappingSound(rest: Fields) {
    forall name :: name in rest ==> TrimSpace(name) != "" && ProvidersSound(rest[name])
  }

  predicate FieldsKnown(rest: Fields) { forall name :: name in rest ==> IsKnownField(name) }

  ghost predicate PackageSound(p: Package) {
    match p
    case Plain(value) => IsText(value)
    case Spec(rest, _, _, _, _) =>
      if IsMapping(p) then MappingSound(rest)
      else FieldsKnown(rest) && TextAt(rest, "id") && PathsSound(rest) && HookListsSound(rest) && LocationsSound(p)
  }

  lemma LocationsAre(p: Package)
    requires p.Spec?
    ensures LocationsSound(p)
      <==> ValidPlatforms(p.from) && ValidPlatforms(p.sha256) && ValidArchives(p.archive) && ValidBinary(p)
  {
    ByPlatform(p.from);
    ByPlatform(p.sha256);
    Archives(p.archive);
  }

  lemma ByPlatform(field: Option<Fields>)
    ensures ValidPlatforms(field) <==> (field.Some? ==> TextsByPlatform(field.value))
  {
    if field.Some? {
      forall key | key in field.value ensures ToLower(key) in PLATFORM_KEYS <==> KnownKey(ToLower(key)) {
        KeysAreKnown(ToLower(key));
      }
    }
  }

  lemma ArchiveIs(value: Value)
    ensures value.Map? && TrimSpace(StringField(value.fields, "format")) in FORMATS <==> IsArchive(value)
  {
    BlankIsNoFormat();
  }

  lemma Archives(field: Option<Fields>)
    ensures ValidArchives(field) <==> ArchivesSound(field)
  {
    if field.Some? {
      forall key | key in field.value
        ensures ToLower(key) in PLATFORM_KEYS <==> KnownKey(ToLower(key))
        ensures field.value[key].Map? && TrimSpace(StringField(field.value[key].fields, "format")) in FORMATS
          <==> IsArchive(field.value[key])
      {
        KeysAreKnown(ToLower(key));
        ArchiveIs(field.value[key]);
      }
    }
  }

  lemma BlankIsNoFormat()
    ensures TrimSpace("") == ""
  {
  }

  lemma MappingIs(rest: Fields)
    ensures ValidMapping(rest) <==> MappingSound(rest)
  {
    forall id | id in rest && rest[id].Map?
      ensures (forall provider :: provider in rest[id].fields ==>
                 Provider(provider) && (rest[id].fields[provider].Null? || rest[id].fields[provider].Str?))
        <==> ProvidersSound(rest[id])
    {
      forall provider | provider in rest[id].fields ensures Provider(provider) <==> IsProvider(provider) {
        KnownFields(provider);
      }
    }
  }

  lemma RestIs(rest: Fields)
    ensures ValidRest(rest) <==> FieldsKnown(rest) && TextAt(rest, "id") && PathsSound(rest) && HookListsSound(rest)
  {
    Paths(rest);
    HookLists(rest);
    BlankIsNoFormat();
    forall name | name in rest
      ensures name in PACKAGE_FIELDS || Provider(name) || Extension(name) <==> IsKnownField(name)
    {
      KnownFields(name);
    }
  }

  lemma PackagesAre(p: Package)
    ensures ValidPackage(p) <==> PackageSound(p)
  {
    if p.Spec? {
      Mappings(p);
      MappingIs(p.rest);
      RestIs(p.rest);
      LocationsAre(p);
    }
  }

  // --------------------------------------------------------------- documents

  predicate IsTopName(name: string) {
    name == "schema" || name == "name" || name == "requires_privilege" || name == "defaults" || name == "env"
    || name == "hooks" || name == "packages"
  }

  predicate IsTopField(name: string) { IsTopName(name) || IsExtension(name) }

  ghost predicate TopSound(fields: Fields) {
    && (forall name :: name in fields ==> IsTopField(name))
    && "schema" in fields && fields["schema"] == Str("0.1") && TextAt(fields, "name") && HookListsSound(fields)
  }

  ghost predicate NamesSound(packages: seq<Package>) {
    && (forall i :: 0 <= i < |packages| ==> HasName(packages[i]))
    && (forall i, j :: 0 <= i < j < |packages| ==> !Namesakes(packages[i], packages[j]))
  }

  ghost predicate HasName(p: Package) { exists name :: Named(p, name) }

  ghost predicate Namesakes(p: Package, q: Package) { exists name :: Named(p, name) && Named(q, name) }

  /** The value lists this text, blanks around it aside. */
  predicate Asks(value: Value, need: string) {
    && value.List?
    && exists i ::
         0 <= i < |value.items| && IsText(value.items[i]) && TrimSpace(value.items[i].text) == need
  }

  /** Every package a package needs is there. */
  ghost predicate NeedsSound(packages: seq<Package>) {
    forall p :: p in packages ==> NeedsOfSound(p, packages)
  }

  ghost predicate NeedsOfSound(p: Package, packages: seq<Package>) {
    p.Spec? && "needs" in p.rest ==> forall need :: Asks(p.rest["needs"], need) ==> IsThere(packages, need)
  }

  ghost predicate IsThere(packages: seq<Package>, name: string) {
    exists i :: 0 <= i < |packages| && Named(packages[i], name)
  }

  /** What an accepted manifest is. */
  ghost predicate Sound(doc: Document) {
    && TopSound(doc.fields)
    && doc.packages.Some? && doc.packages.value != []
    && NamesSound(doc.packages.value)
    && (forall p :: p in doc.packages.value ==> PackageSound(p))
    && NeedsSound(doc.packages.value)
  }

  lemma TopNames(name: string)
    ensures name in TOP_FIELDS <==> IsTopName(name)
  {
  }

  lemma TopFields(name: string)
    ensures name in TOP_FIELDS || Extension(name) <==> IsTopField(name)
  {
    TopNames(name);
    KnownFields(name);
  }

  lemma TopIs(fields: Fields)
    ensures ValidTop(fields) <==> TopSound(fields)
  {
    HookLists(fields);
    BlankIsNoFormat();
    forall name | name in fields ensures name in TOP_FIELDS || Extension(name) <==> IsTopField(name) {
      TopFields(name);
    }
  }

  lemma IsThereIs(packages: seq<Package>, name: string)
    ensures Has(packages, name) <==> IsThere(packages, name)
  {
    forall i | 0 <= i < |packages| ensures PackageId(packages[i]) == Some(name) <==> Named(packages[i], name) {
      NamesAre(packages[i], name);
    }
  }

  lemma NamesTogether(packages: seq<Package>)
    ensures Keyed(packages) <==> NamesSound(packages)
  {
    forall i | 0 <= i < |packages| ensures PackageId(packages[i]).Some? <==> HasName(packages[i]) {
      SomeName(packages[i]);
    }
    if Keyed(packages) {
      forall i, j | 0 <= i < j < |packages| ensures !Namesakes(packages[i], packages[j]) {
        SameNameTwice(packages[i], packages[j]);
      }
    }
    if NamesSound(packages) {
      forall i | 0 <= i < |packages| ensures PackageId(packages[i]).Some? {
        assert HasName(packages[i]);
      }
      forall i, j | 0 <= i < j < |packages| ensures PackageId(packages[i]) != PackageId(packages[j]) {
        SameNameTwice(packages[i], packages[j]);
      }
    }
  }

  lemma SameNameTwice(p: Package, q: Package)
    requires PackageId(p).Some?
    ensures PackageId(p) == PackageId(q) <==> Namesakes(p, q)
  {
    NamesAre(p, PackageId(p).value);
    NamesAre(q, PackageId(p).value);
    if name :| Named(p, name) && Named(q, name) {
      NamesAre(p, name);
      NamesAre(q, name);
    }
  }

  lemma SomeName(p: Package)
    ensures PackageId(p).Some? <==> HasName(p)
  {
    if PackageId(p).Some? {
      NamesAre(p, PackageId(p).value);
    }
    if name :| Named(p, name) {
      NamesAre(p, name);
    }
  }

  lemma {:induction false} Trims(items: seq<string>, need: string)
    ensures need in Trimmings(items) <==> need != "" && exists i :: 0 <= i < |items| && TrimSpace(items[i]) == need
  {
    if items != [] {
      Trims(items[1..], need);
      assert items == [items[0]] + items[1..];
    }
  }

  lemma {:induction false} TextsOf(items: seq<Value>, text: string)
    ensures text in Strings(items) <==> Str(text) in items
  {
    if items != [] {
      TextsOf(items[1..], text);
      assert items == [items[0]] + items[1..];
    }
  }

  lemma AsksAre(value: Value, need: string)
    requires value.List?
    ensures need in Trimmings(Strings(value.items)) <==> Asks(value, need)
  {
    Trims(Strings(value.items), need);
    if need in Trimmings(Strings(value.items)) {
      var k :| 0 <= k < |Strings(value.items)| && TrimSpace(Strings(value.items)[k]) == need;
      TextsOf(value.items, Strings(value.items)[k]);
      var i :| 0 <= i < |value.items| && value.items[i] == Str(Strings(value.items)[k]);
    }
    if i :| 0 <= i < |value.items| && IsText(value.items[i]) && TrimSpace(value.items[i].text) == need {
      TextsOf(value.items, value.items[i].text);
      var k :| 0 <= k < |Strings(value.items)| && Strings(value.items)[k] == value.items[i].text;
    }
  }

  lemma NeedsAre(p: Package, packages: seq<Package>)
    ensures NeedsMet(p, packages) <==> NeedsOfSound(p, packages)
  {
    if p.Spec? && "needs" in p.rest && p.rest["needs"].List? {
      forall need
        ensures need in StringSlice(p.rest, "needs") <==> Asks(p.rest["needs"], need)
        ensures Has(packages, need) <==> IsThere(packages, need)
      {
        AsksAre(p.rest["needs"], need);
        IsThereIs(packages, need);
      }
    }
  }

  lemma AllPackages(packages: seq<Package>)
    ensures (forall i :: 0 <= i < |packages| ==> ValidPackage(packages[i]))
      <==> forall p :: p in packages ==> PackageSound(p)
  {
    forall i | 0 <= i < |packages| ensures ValidPackage(packages[i]) <==> PackageSound(packages[i]) {
      PackagesAre(packages[i]);
    }
  }

  lemma AllNeeds(packages: seq<Package>)
    ensures (forall i :: 0 <= i < |packages| ==> NeedsMet(packages[i], packages)) <==> NeedsSound(packages)
  {
    forall i | 0 <= i < |packages| ensures NeedsMet(packages[i], packages) <==> NeedsOfSound(packages[i], packages) {
      NeedsAre(packages[i], packages);
    }
  }

  /** Validation accepts exactly the sound manifests. */
  lemma ValidIsSound(doc: Document)
    ensures Valid(doc) <==> Sound(doc)
  {
    TopIs(doc.fields);
    if doc.packages.Some? {
      NamesTogether(doc.packages.value);
      AllPackages(doc.packages.value);
      AllNeeds(doc.packages.value);
    }
  }

  // ------------------------------------------------------- accepted manifests

  /** Whatever any sequence of publish calls stores is sound. */
  lemma StoredIsSound(calls: seq<Call>)
    requires calls != [] && Pipeline(calls).Some?
    ensures Sound(Pipeline(calls).value)
  {
    PipelineExactly(calls);
    PipelineIsMerge(calls);
    ValidIsSound(Pipeline(calls).value);
  }

  /** Who finds a location in a sound manifest finds its hash under the same key, for a
      platform there is, and a version and a way to use what is fetched with it. */
  lemma LocationsAreHashed(doc: Document, p: Package, key: string)
    requires Sound(doc) && p in doc.packages.value && p.Spec? && p.from.Some? && key in p.from.value
    ensures p.from.value[key].Str?
    ensures p.sha256.Some? && key in p.sha256.value && p.sha256.value[key].Str?
    ensures exists os: Os, arch: Arch :: ToLower(key) == KeyName(os, arch)
    ensures TextAt(p.rest, "version") && (HasMap(p.rest, "expose") || PostHooked(p.rest))
  {
    assert PackageSound(p);
    assert KnownKey(ToLower(key));
  }
}

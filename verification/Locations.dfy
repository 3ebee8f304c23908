/** Download locations: how the server reads a request for one, and that the address the
    manifest gives for a file is read back as a request for that file. */
module Locations {
  import opened Text
  import opened Market
  import opened AdpRelease

  /** What a download request asks for. */
  datatype Download = Download(itemType: ItemType, id: string, version: string, platform: string)

  /** The item type behind a route of the server. */
  function RouteType(route: string): Option<ItemType> {
    match route
    case "skills" => Some(Skill)
    case "plugins" => Some(Plugin)
    case "agents" => Some(Agent)
    case "sandbox-images" => Some(SandboxImage)
    case "pets" => Some(Pet)
    case "cli-tools" => Some(CliTool)
    case "webapps" => Some(WebsiteApp)
    case "website-apps" => Some(WebsiteApp)
    case "software-packages" => Some(SoftwarePackage)
    case _ => None
  }

  // ------------------------------------------------------------------- queries

  function HexDigit(c: char): Option<nat> {
    if '0' <= c <= '9' then Some(c as nat - '0' as nat)
    else if 'a' <= c <= 'f' then Some(c as nat - 'a' as nat + 10)
    else if 'A' <= c <= 'F' then Some(c as nat - 'A' as nat + 10)
    else None
  }

  /** url.QueryUnescape: a plus sign is a blank, a percent sign starts two hexadecimal
      digits, anything else stands for itself. */
  function Unescape(text: string): Option<string> {
    if text == "" then Some("")
    else if text[0] == '%' then
      if |text| < 3 || HexDigit(text[1]).None? || HexDigit(text[2]).None? then None
      else
        var rest := Unescape(text[3..]);
        if rest.None? then None
        else Some([(HexDigit(text[1]).value * 16 + HexDigit(text[2]).value) as char] + rest.value)
    else
      var rest := Unescape(text[1..]);
      if rest.None? then None else Some([if text[0] == '+' then ' ' else text[0]] + rest.value)
  }

  /** The value a field of a query gives to a name, if it names it at all. A field with a
      semicolon or a broken escape is skipped. */
  function FieldValue(field: string, name: string): Option<string> {
    if ';' in field then None
    else
      var (key, value) := Cut(field, '=');
      if Unescape(key) != Some(name) then None
      else if value.None? then Some("")
      else Unescape(value.value)
  }

  /** url.Values.Get: the first value given, or the empty text. */
  function Param(fields: seq<string>, name: string): string {
    if fields == [] then ""
    else if FieldValue(fields[0], name).Some? then FieldValue(fields[0], name).value
    else Param(fields[1..], name)
  }

  /** A request for the download route of an item type, by the part of the address that
      follows the host; what follows a number sign is not sent. */
  function ParseRequest(address: string): Option<Download> {
    var (path, query) := Cut(Cut(address, '#').0, '?');
    var steps := Split(path, '/');
    var fields := if query.Some? then Split(query.value, '&') else [];
    if |steps| != 6 || steps[0] != "" || steps[1] != "api" || steps[2] != "v1" || steps[5] != "download" then None
    else
      var itemType := RouteType(steps[3]);
      if itemType.None? then None
      else Some(Download(itemType.value, steps[4], Param(fields, "version"), Param(fields, "platform")))
  }

  // ------------------------------------------------------- what is left alone

  /** Characters a query leaves alone. */
  predicate Plain(c: char) { c != '%' && c != '+' && c != '&' && c != ';' && c != '#' }

  predicate PlainText(text: string) { forall i :: 0 <= i < |text| ==> Plain(text[i]) }

  predicate Unescaped(text: string) { forall i :: 0 <= i < |text| ==> text[i] != '%' && text[i] != '+' }

  /** A text is read as it stands exactly when it has no sign to escape. */
  lemma {:induction false} ReadAsItStands(text: string)
    ensures Unescape(text) == Some(text) <==> Unescaped(text)
    ensures Unescape(text).Some? ==> |Unescape(text).value| <= |text|
    decreases |text|
  {
    if text != "" {
      if text[0] == '%' {
        if |text| >= 3 {
          ReadAsItStands(text[3..]);
        }
      } else {
        ReadAsItStands(text[1..]);
        if Unescape(text) == Some(text) {
          assert Unescape(text[1..]).value == text[1..];
        }
        if Unescaped(text) {
          assert Unescaped(text[1..]);
          assert text == [text[0]] + text[1..];
        } else if text[0] != '+' {
          assert !Unescaped(text[1..]);
        }
      }
    }
  }

  // ------------------------------------------------------------------ parsing

  lemma {:induction false} PartsAreShort(s: string, sep: char, i: nat)
    requires i < |Split(s, sep)|
    ensures |Split(s, sep)[i]| <= |s|
    ensures sep in s ==> |Split(s, sep)[i]| < |s|
  {
    if s != "" {
      var rest := Split(s[1..], sep);
      if s[0] == sep {
        if i > 0 {
          PartsAreShort(s[1..], sep, i - 1);
        }
      } else if i == 0 {
        PartsAreShort(s[1..], sep, 0);
      } else {
        PartsAreShort(s[1..], sep, i);
        LaterParts(s[1..], sep, i);
      }
    }
  }

  lemma {:induction false} LaterParts(s: string, sep: char, i: nat)
    requires 0 < i < |Split(s, sep)|
    ensures sep in s
  {
    if s[0] != sep {
      LaterParts(s[1..], sep, i);
    }
  }

  /** A field that names the version spends eight characters on it. */
  lemma VersionFieldIsShort(field: string)
    ensures FieldValue(field, "version").Some? ==>
      FieldValue(field, "version").value == "" || |FieldValue(field, "version").value| + 8 <= |field|
  {
    CutParts(field, '=');
    var (key, value) := Cut(field, '=');
    ReadAsItStands(key);
    if value.Some? {
      ReadAsItStands(value.value);
    }
  }

  lemma {:induction false} ParamIsShort(fields: seq<string>, bound: nat)
    requires forall i :: 0 <= i < |fields| && FieldValue(fields[i], "version").Some? ==> |fields[i]| <= bound + 8
    ensures |Param(fields, "version")| <= bound
  {
    if fields != [] {
      VersionFieldIsShort(fields[0]);
      if FieldValue(fields[0], "version").None? {
        ParamIsShort(fields[1..], bound);
      }
    }
  }

  predicate Safe(text: string) { forall i :: 0 <= i < |text| ==> PlatformChar(text[i]) }

  lemma SafeIsPlain(text: string)
    requires Safe(text)
    ensures PlainText(text) && '/' !in text && '?' !in text && '=' !in text && '#' !in text && '&' !in text
    ensures Unescape(text) == Some(text)
  {
    ReadAsItStands(text);
  }

  // -------------------------------------------------------------- the address

  function PathOf(route: string, id: string): string { "/api/v1/" + (route + "/" + (id + "/download")) }

  lemma ApiSplits(rest: string)
    ensures Split("/api/v1/" + rest, '/') == ["", "api", "v1"] + Split(rest, '/')
  {
    RootSplits("api/v1/" + rest);
    ServiceSplits(rest);
    assert "/" + ("api/v1/" + rest) == "/api/v1/" + rest;
    assert [""] + (["api", "v1"] + Split(rest, '/')) == ["", "api", "v1"] + Split(rest, '/');
  }

  lemma RootSplits(rest: string)
    ensures Split("/" + rest, '/') == [""] + Split(rest, '/')
  {
  }

  lemma ServiceSplits(rest: string)
    ensures Split("api/v1/" + rest, '/') == ["api", "v1"] + Split(rest, '/')
  {
    var v1 := "v1/" + rest;
    SplitPrefix("api", v1, '/');
    SplitPrefix("v1", rest, '/');
    assert "v1" + ['/'] + rest == v1;
    assert "api" + ['/'] + v1 == "api/v1/" + rest;
  }

  lemma TwoParts(first: string, last: string, sep: char)
    requires sep !in first && sep !in last
    ensures Split(first + [sep] + last, sep) == [first, last]
  {
    SplitPrefix(first, last, sep);
    SplitPrefix(last, "", sep);
  }

  lemma DownloadSplits(id: string)
    requires '/' !in id
    ensures Split(id + "/download", '/') == [id, "download"]
  {
    TwoParts(id, "download", '/');
    assert id + ['/'] + "download" == id + "/download";
  }

  lemma PathSplits(route: string, id: string)
    requires '/' !in route && '/' !in id
    ensures Split(PathOf(route, id), '/') == ["", "api", "v1"] + [route] + [id, "download"]
  {
    ApiSplits(route + "/" + (id + "/download"));
    SplitPrefix(route, id + "/download", '/');
    DownloadSplits(id);
    assert route + ['/'] + (id + "/download") == route + "/" + (id + "/download");
  }

  function QueryOf(version: string, platform: string): string {
    "version=" + version + if platform == "" then "" else "&platform=" + platform
  }

  lemma FieldIsRead(key: string, value: string, name: string)
    requires Safe(key)
    ensures FieldValue(key + "=" + value, name) == if ';' in value || key != name then None else Unescape(value)
  {
    SafeIsPlain(key);
    CutPrefix(key, value, '=');
    assert key + ['='] + value == key + "=" + value;
    assert ';' !in key;
  }

  /** What the fields of a query without a number sign are. */
  lemma QueryFields(version: string, platform: string)
    requires Safe(platform) && platform != ""
    ensures Split(QueryOf(version, ""), '&') + ["platform=" + platform] == Split(QueryOf(version, platform), '&')
  {
    SafeIsPlain(platform);
    SplitAgain("version=" + version, "platform=" + platform, '&');
    TwoFields(version, platform);
  }

  lemma TwoFields(version: string, platform: string)
    requires platform != ""
    ensures QueryOf(version, "") == "version=" + version
    ensures QueryOf(version, platform) == "version=" + version + ['&'] + ("platform=" + platform)
  {
  }

  lemma {:induction false} SplitAgain(a: string, b: string, sep: char)
    requires sep !in b
    ensures Split(a + [sep] + b, sep) == Split(a, sep) + [b]
  {
    if a == "" {
      SplitPrefix("", b, sep);
      SplitPrefix(b, "", sep);
    } else {
      SplitAgain(a[1..], b, sep);
      assert (a + [sep] + b)[1..] == a[1..] + [sep] + b;
      var rest := Split(a[1..], sep);
      assert (rest + [b])[1..] == rest[1..] + [b];
    }
  }

  lemma {:induction false} ParamOfMore(fields: seq<string>, last: string, name: string)
    requires FieldValue(last, name).None?
    ensures Param(fields + [last], name) == Param(fields, name)
  {
    if fields != [] {
      ParamOfMore(fields[1..], last, name);
      assert (fields + [last])[1..] == fields[1..] + [last];
    } else {
      assert (fields + [last])[1..] == [];
    }
  }

  /** The version of a query is read as it was written exactly when it needs no escape. */
  lemma VersionIsRead(version: string, platform: string)
    requires Safe(platform) && '#' !in version
    ensures Param(Split(QueryOf(version, platform), '&'), "version") == version <==> PlainText(version)
  {
    if platform != "" {
      QueryFields(version, platform);
      FieldIsRead("platform", platform, "version");
      assert "platform" + "=" + platform == "platform=" + platform;
      ParamOfMore(Split(QueryOf(version, ""), '&'), "platform=" + platform, "version");
    }
    LoneVersionIsRead(version);
  }

  lemma LoneVersionIsRead(version: string)
    requires '#' !in version
    ensures Param(Split(QueryOf(version, ""), '&'), "version") == version <==> PlainText(version)
  {
    var query := QueryOf(version, "");
    assert query == "version" + "=" + version;
    if '&' in version {
      assert '&' in query;
      forall i | 0 <= i < |Split(query, '&')| ensures |Split(query, '&')[i]| <= |version| - 1 + 8 {
        PartsAreShort(query, '&', i);
      }
      ParamIsShort(Split(query, '&'), |version| - 1);
    } else {
      SplitPrefix(query, "", '&');
      FieldIsRead("version", version, "version");
      ReadAsItStands(version);
    }
  }

  // ------------------------------------------------------------ reading back

  function AddressOf(route: string, id: string, version: string, platform: string): string {
    PathOf(route, id) + "?" + QueryOf(version, platform)
  }

  lemma PathIsSafe(route: string, id: string, sep: char)
    requires Safe(route) && Safe(id) && (sep == '?' || sep == '#')
    ensures sep !in PathOf(route, id)
  {
    assert sep !in "/api/v1/" && sep !in "/download";
    SafeIsPlain(route);
    SafeIsPlain(id);
  }

  lemma QueryIsSafe(version: string, platform: string)
    requires Safe(platform) && '#' !in version
    ensures '#' !in QueryOf(version, platform)
  {
    assert '#' !in "version=" && '#' !in "&platform=";
    SafeIsPlain(platform);
  }

  /** The path and the query of an address without a number sign. */
  lemma AddressIsCut(route: string, id: string, version: string, platform: string)
    requires Safe(route) && Safe(id) && Safe(platform) && '#' !in version
    ensures Cut(Cut(AddressOf(route, id, version, platform), '#').0, '?')
      == (PathOf(route, id), Some(QueryOf(version, platform)))
  {
    var path, query := PathOf(route, id), QueryOf(version, platform);
    PathIsSafe(route, id, '?');
    PathIsSafe(route, id, '#');
    QueryIsSafe(version, platform);
    CutPrefix(path + "?" + query, "", '#');
    CutPrefix(path, query, '?');
  }

  /** A version with a number sign is cut short there. */
  lemma AddressIsCutShort(route: string, id: string, before: string, after: string, platform: string)
    requires Safe(route) && Safe(id) && '#' !in before
    ensures Cut(Cut(AddressOf(route, id, before + ['#'] + after, platform), '#').0, '?')
      == (PathOf(route, id), Some(QueryOf(before, "")))
  {
    var path, sent := PathOf(route, id), QueryOf(before, "");
    PathIsSafe(route, id, '?');
    PathIsSafe(route, id, '#');
    QueryIsSafe(before, "");
    var unsent := after + if platform == "" then "" else "&platform=" + platform;
    CutPrefix(path + "?" + sent, unsent, '#');
    assert AddressOf(route, id, before + ['#'] + after, platform) == (path + "?" + sent) + ['#'] + unsent;
    CutPrefix(path, sent, '?');
  }

  lemma VersionIsNoLonger(version: string)
    ensures |Param(Split(QueryOf(version, ""), '&'), "version")| <= |version|
  {
    var query := QueryOf(version, "");
    forall i | 0 <= i < |Split(query, '&')| ensures |Split(query, '&')[i]| <= |version| + 8 {
      PartsAreShort(query, '&', i);
    }
    ParamIsShort(Split(query, '&'), |version|);
  }

  lemma PlatformIsRead(version: string, platform: string)
    requires Safe(platform) && PlainText(version)
    ensures Param(Split(QueryOf(version, platform), '&'), "platform") == platform
  {
    LoneField(version);
    FieldIsRead("version", version, "platform");
    if platform != "" {
      QueryFields(version, platform);
      FieldIsRead("platform", platform, "platform");
      SafeIsPlain(platform);
      assert "platform" + "=" + platform == "platform=" + platform;
      ParamOfBoth("version=" + version, "platform=" + platform, "platform");
    }
  }

  lemma LoneField(version: string)
    requires PlainText(version)
    ensures Split(QueryOf(version, ""), '&') == ["version=" + version]
    ensures "version" + "=" + version == "version=" + version
  {
    var query := QueryOf(version, "");
    assert query == "version=" + version && "version" + "=" == "version=";
    assert '&' !in "version=" && '&' !in version;
    SplitPrefix(query, "", '&');
  }

  lemma ParamOfBoth(first: string, second: string, name: string)
    requires FieldValue(first, name).None? && FieldValue(second, name).Some?
    ensures Param([first] + [second], name) == FieldValue(second, name).value
  {
    assert ([first] + [second])[1..] == [second];
  }

  /** What the server makes of the path of an address. */
  lemma PathIsRead(route: string, id: string, address: string, query: string)
    requires Safe(route) && Safe(id) && Cut(Cut(address, '#').0, '?') == (PathOf(route, id), Some(query))
    ensures var fields := Split(query, '&');
      ParseRequest(address)
      == if RouteType(route).None? then None
         else Some(Download(RouteType(route).value, id, Param(fields, "version"), Param(fields, "platform")))
  {
    SafeIsPlain(route);
    SafeIsPlain(id);
    PathSplits(route, id);
  }

  /** An address under a route of an item type is read back exactly when its version has no
      sign that a query escapes. */
  lemma AddressIsRead(route: string, itemType: ItemType, id: string, version: string, platform: string)
    requires Safe(route) && Safe(id) && Safe(platform) && RouteType(route) == Some(itemType)
    ensures ParseRequest(AddressOf(route, id, version, platform)) == Some(Download(itemType, id, version, platform))
      <==> PlainText(version)
  {
    var address := AddressOf(route, id, version, platform);
    if '#' in version {
      CutParts(version, '#');
      var (before, after) := Cut(version, '#');
      assert version == before + ['#'] + after.value;
      AddressIsCutShort(route, id, before, after.value, platform);
      PathIsRead(route, id, address, QueryOf(before, ""));
      VersionIsNoLonger(before);
    } else {
      AddressIsCut(route, id, version, platform);
      PathIsRead(route, id, address, QueryOf(version, platform));
      VersionIsRead(version, platform);
      if PlainText(version) {
        PlatformIsRead(version, platform);
      }
    }
  }

  // ------------------------------------------------------ the manifest's links

  /** The address a server is reached under, without slashes at its end. */
  predicate HostOf(base: string, host: string) {
    && host <= base && (forall i :: |host| <= i < |base| ==> base[i] == '/')
    && (host != "" ==> host[|host| - 1] != '/')
  }

  lemma {:induction false} SlashesGone(base: string)
    ensures HostOf(base, TrimSlashes(base))
  {
    if base != "" && base[|base| - 1] == '/' {
      SlashesGone(base[..|base| - 1]);
    }
  }

  /** The routes manifests use are routes of the server, but for one. */
  lemma RoutesAreServed(itemType: ItemType)
    ensures Safe(Route(itemType))
    ensures RouteType(Route(itemType)) == if itemType == SoftwarePackage then None else Some(itemType)
  {
    match itemType
    case CliTool => case Skill => case Plugin => case Agent => case SandboxImage => case Pet =>
    case WebsiteApp => case SoftwarePackage =>
  }

  lemma UrlIsAddress(site: Site, platform: string)
    ensures DownloadUrl(site, platform)
      == TrimSlashes(site.base) + AddressOf(Route(site.key.itemType), site.key.id, site.version, platform)
  {
  }

  /** The location names this file on this server. */
  ghost predicate LeadsTo(url: string, site: Site, platform: string) {
    exists host :: HostOf(site.base, host) && LeadsFrom(host, url, site, platform)
  }

  predicate LeadsFrom(host: string, url: string, site: Site, platform: string) {
    && host <= url
    && ParseRequest(url[|host|..]) == Some(Download(site.key.itemType, site.key.id, site.version, platform))
  }

  lemma HostEnds(base: string, host: string)
    requires HostOf(base, host) && host != ""
    ensures base[|host| - 1] != '/'
  {
  }

  lemma HostIsOne(base: string, host: string, other: string)
    requires HostOf(base, host) && HostOf(base, other)
    ensures host == other
  {
    if host != "" {
      HostEnds(base, host);
    }
    if other != "" {
      HostEnds(base, other);
    }
  }

  /** A file's location leads back to that file, unless the version has a sign a query
      escapes or the item is a software package. */
  lemma DownloadIsRead(site: Site, platform: string)
    requires Safe(site.key.id) && Safe(platform)
    ensures LeadsTo(DownloadUrl(site, platform), site, platform)
      <==> PlainText(site.version) && site.key.itemType != SoftwarePackage
  {
    var host, url := TrimSlashes(site.base), DownloadUrl(site, platform);
    SlashesGone(site.base);
    UrlIsAddress(site, platform);
    var route := Route(site.key.itemType);
    assert url[|host|..] == AddressOf(route, site.key.id, site.version, platform);
    RoutesAreServed(site.key.itemType);
    if site.key.itemType == SoftwarePackage {
      PackagesAreNotServed(site.key.id, site.version, platform);
    } else {
      AddressIsRead(route, site.key.itemType, site.key.id, site.version, platform);
    }
    if other :| HostOf(site.base, other) && LeadsFrom(other, url, site, platform) {
      HostIsOne(site.base, host, other);
    }
  }

  lemma PackagesAreNotServed(id: string, version: string, platform: string)
    requires Safe(id) && Safe(platform)
    ensures ParseRequest(AddressOf("software-package", id, version, platform)).None?
  {
    var address := AddressOf("software-package", id, version, platform);
    RoutesAreServed(SoftwarePackage);
    if '#' in version {
      CutParts(version, '#');
      var (before, after) := Cut(version, '#');
      AddressIsCutShort("software-package", id, before, after.value, platform);
      PathIsRead("software-package", id, address, QueryOf(before, ""));
    } else {
      AddressIsCut("software-package", id, version, platform);
      PathIsRead("software-package", id, address, QueryOf(version, platform));
    }
  }
}

/** The loops of version.go and the scan for the latest release, each proved to
    compute the function of module SemVer that specifies it. */
module Versions {
  import opened Text
  import opened SemVer

  method IsDigits(value: string) returns (ok: bool)
    ensures ok <==> Digits(value)
  {
    for i := 0 to |value|
      invariant AllDigits(value[..i])
    {
      if value[i] < '0' || value[i] > '9' {
        assert value[i] in value;
        return false;
      }
      assert value[..i + 1] == value[..i] + [value[i]];
    }
    assert value[..|value|] == value;
    return value != "";
  }

  method ValidIdentifier(value: string) returns (ok: bool)
    ensures ok <==> forall c :: c in value ==> IdentifierChar(c)
  {
    for i := 0 to |value|
      invariant forall c :: c in value[..i] ==> IdentifierChar(c)
    {
      var c := value[i];
      if '0' <= c <= '9' || 'A' <= c <= 'Z' || 'a' <= c <= 'z' || c == '-' {
        assert value[..i + 1] == value[..i] + [c];
        continue;
      }
      assert c in value;
      return false;
    }
    assert value[..|value|] == value;
    return true;
  }

  method ValidIdentifierList(value: string, forbidPadding: bool) returns (ok: bool)
    ensures ok <==> IdentifierList(value, forbidPadding)
  {
    if value == "" {
      return false;
    }
    var parts := Split(value, '.');
    for i := 0 to |parts|
      invariant forall k :: 0 <= k < i ==> Identifier(parts[k]) && !(forbidPadding && PaddedNumber(parts[k]))
    {
      var part := parts[i];
      assert part in parts;
      var valid := ValidIdentifier(part);
      if part == "" || !valid {
        return false;
      }
      var digits := IsDigits(part);
      if forbidPadding && |part| > 1 && part[0] == '0' && digits {
        return false;
      }
    }
    return true;
  }

  /** parseSemanticVersion: fills the three core numbers one by one. */
  method ParseSemanticVersion(value: string) returns (result: Version, ok: bool)
    ensures ok <==> Parse(value).Some?
    ensures ok ==> Some(result) == Parse(value)
  {
    result := Version(0, 0, 0, "");
    var text := Canonical(value);
    if text == "" {
      return result, false;
    }
    var buildParts := Split(text, '+');
    if |buildParts| > 2 {
      return result, false;
    }
    if |buildParts| == 2 {
      var valid := ValidIdentifierList(buildParts[1], false);
      if !valid {
        return result, false;
      }
    }
    var (head, pre) := Cut(buildParts[0], '-');
    var core := Split(head, '.');
    if |core| != 3 {
      return result, false;
    }
    var numbers: seq<nat> := [0, 0, 0];
    for i := 0 to 3
      invariant |numbers| == 3
      invariant forall k :: 0 <= k < i ==> CoreNumber(core[k]) == Some(numbers[k])
    {
      var number := NumericIdentifier(core[i]);
      if number.None? || (|core[i]| > 1 && core[i][0] == '0') {
        assert CoreNumber(core[i]).None?;
        return result, false;
      }
      numbers := numbers[i := number.value];
    }
    var prerelease := "";
    if pre.Some? {
      var valid := ValidIdentifierList(pre.value, true);
      if !valid {
        return result, false;
      }
      prerelease := pre.value;
    }
    return Version(numbers[0], numbers[1], numbers[2], prerelease), true;
  }

  /** The identifier loop of compareSemanticVersions. */
  method ComparePrereleaseLists(l: seq<string>, r: seq<string>) returns (c: int)
    ensures c == CompareLists(l, r)
  {
    var i := 0;
    while i < |l| && i < |r|
      invariant 0 <= i <= |l| && i <= |r|
      invariant CompareLists(l, r) == CompareLists(l[i..], r[i..])
    {
      if l[i] == r[i] {
        assert l[i..][1..] == l[i + 1..] && r[i..][1..] == r[i + 1..];
        i := i + 1;
        continue;
      }
      var x, y := NumericIdentifier(l[i]), NumericIdentifier(r[i]);
      if x.Some? && y.Some? {
        return if x.value < y.value then -1 else 1;
      } else if x.Some? {
        return -1;
      } else if y.Some? {
        return 1;
      } else if LexLess(l[i], r[i]) {
        return -1;
      } else {
        return 1;
      }
    }
    if |l| < |r| {
      return -1;
    }
    if |l| > |r| {
      return 1;
    }
    return 0;
  }

  method CompareSemanticVersions(left: string, right: string) returns (c: int, ok: bool)
    ensures ok <==> Compare(left, right).Some?
    ensures ok ==> Some(c) == Compare(left, right)
  {
    var l, lok := ParseSemanticVersion(left);
    if !lok {
      return 0, false;
    }
    var r, rok := ParseSemanticVersion(right);
    if !rok {
      return 0, false;
    }
    var lcore, rcore := [l.major, l.minor, l.patch], [r.major, r.minor, r.patch];
    for i := 0 to 3
      invariant forall k :: 0 <= k < i ==> lcore[k] == rcore[k]
    {
      assert i > 0 ==> lcore[0] == rcore[0];
      assert i > 1 ==> lcore[1] == rcore[1];
      if lcore[i] < rcore[i] {
        return -1, true;
      }
      if lcore[i] > rcore[i] {
        return 1, true;
      }
    }
    assert lcore[0] == rcore[0] && lcore[1] == rcore[1] && lcore[2] == rcore[2];
    if l.pre == "" && r.pre != "" {
      return 1, true;
    }
    if l.pre != "" && r.pre == "" {
      return -1, true;
    }
    if l.pre == r.pre {
      return 0, true;
    }
    c := ComparePrereleaseLists(Split(l.pre, '.'), Split(r.pre, '.'));
    return c, true;
  }

  /** findLatestPublishedVersion over the rows of its query. */
  method FindLatest(rows: seq<string>) returns (latest: string)
    ensures latest == Latest(rows)
    ensures IsMaximum(latest, rows)
  {
    latest := "";
    for i := 0 to |rows|
      invariant latest == Latest(rows[..i])
    {
      assert rows[..i + 1][..i] == rows[..i] && rows[..i + 1][i] == rows[i];
      var candidate := rows[i];
      if latest == "" {
        var _, ok := CompareSemanticVersions(candidate, candidate);
        if ok {
          latest := candidate;
        }
        continue;
      }
      var comparison, ok := CompareSemanticVersions(candidate, latest);
      if ok && comparison > 0 {
        latest := candidate;
      }
    }
    assert rows[..|rows|] == rows;
    LatestIsMaximum(rows);
  }
}

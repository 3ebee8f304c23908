/** What the version parser and comparator of version.go compute, as functions on
    text. The loops that compute them are in module Versions; the comparison with
    Semantic Versioning 2.0.0 is in module SemVerStandard. */
module SemVer {
  import opened Text

  const MAX_INT64: nat := 0x7FFF_FFFF_FFFF_FFFF

  /** The parsed form: three core numbers and the raw prerelease text. */
  datatype Version = Version(major: nat, minor: nat, patch: nat, pre: string)

  /** canonicalVersion: trim, then drop one `v` or `V` standing before a digit. */
  function Canonical(value: string): string {
    var value := TrimSpace(value);
    if |value| >= 2 && (value[0] == 'v' || value[0] == 'V') && IsDigit(value[1]) then value[1..] else value
  }

  predicate Digits(s: string) { s != "" && AllDigits(s) }

  /** A digit string whose value strconv.ParseInt accepts at 64 bits. */
  function NumericIdentifier(s: string): Option<nat> {
    if Digits(s) && Decimal(s) <= MAX_INT64 then Some(Decimal(s)) else None
  }

  predicate IdentifierChar(c: char) {
    IsDigit(c) || 'A' <= c <= 'Z' || 'a' <= c <= 'z' || c == '-'
  }

  /** By code point: digits, letters of either case, and the dash. */
  lemma IdentifierChars(c: char)
    ensures var n := c as int;
      IdentifierChar(c) <==> 48 <= n <= 57 || 65 <= n <= 90 || 97 <= n <= 122 || n == 45
  {
  }

  /** The largest number of 64 bits with a sign. */
  lemma LargestInt64()
    ensures MAX_INT64 + 1 == 0x1_0000_0000 * 0x8000_0000
  {
  }

  predicate Identifier(s: string) { s != "" && forall c :: c in s ==> IdentifierChar(c) }

  predicate PaddedNumber(s: string) { |s| > 1 && s[0] == '0' && Digits(s) }

  predicate IdentifierList(s: string, forbidPadding: bool) {
    s != "" && forall part :: part in Split(s, '.') ==> Identifier(part) && !(forbidPadding && PaddedNumber(part))
  }

  /** A core number: fits int64 and carries no leading zero. */
  function CoreNumber(s: string): Option<nat> {
    if |s| > 1 && s[0] == '0' then None else NumericIdentifier(s)
  }

  /** The part of a version before the build metadata. */
  function ParseFront(front: string): Option<Version> {
    var (core, pre) := Cut(front, '-');
    var core := Split(core, '.');
    if |core| != 3 || CoreNumber(core[0]).None? || CoreNumber(core[1]).None? || CoreNumber(core[2]).None? then None
    else if pre.Some? && !IdentifierList(pre.value, true) then None
    else Some(Version(CoreNumber(core[0]).value, CoreNumber(core[1]).value, CoreNumber(core[2]).value,
                      if pre.Some? then pre.value else ""))
  }

  function Parse(value: string): Option<Version> {
    var value := Canonical(value);
    var buildParts := Split(value, '+');
    if value == "" || |buildParts| > 2 || (|buildParts| == 2 && !IdentifierList(buildParts[1], false)) then None
    else ParseFront(buildParts[0])
  }

  /** Two different prerelease identifiers: numbers that fit int64 come first, in
      numeric order; everything else follows in text order. */
  function CompareIdentifiers(a: string, b: string): int {
    var x, y := NumericIdentifier(a), NumericIdentifier(b);
    if x.Some? && y.Some? then (if x.value < y.value then -1 else 1)
    else if x.Some? then -1
    else if y.Some? then 1
    else if LexLess(a, b) then -1
    else 1
  }

  function CompareLists(l: seq<string>, r: seq<string>): int {
    if l == [] && r == [] then 0
    else if l == [] then -1
    else if r == [] then 1
    else if l[0] == r[0] then CompareLists(l[1..], r[1..])
    else CompareIdentifiers(l[0], r[0])
  }

  function ComparePre(l: string, r: string): int {
    if l == "" && r != "" then 1
    else if l != "" && r == "" then -1
    else if l == r then 0
    else CompareLists(Split(l, '.'), Split(r, '.'))
  }

  function Sign(a: nat, b: nat): int { if a < b then -1 else if a > b then 1 else 0 }

  function CompareParsed(l: Version, r: Version): int {
    if l.major != r.major then Sign(l.major, r.major)
    else if l.minor != r.minor then Sign(l.minor, r.minor)
    else if l.patch != r.patch then Sign(l.patch, r.patch)
    else ComparePre(l.pre, r.pre)
  }

  /** compareSemanticVersions: nothing when either side does not parse. */
  function Compare(left: string, right: string): Option<int> {
    var l, r := Parse(left), Parse(right);
    if l.Some? && r.Some? then Some(CompareParsed(l.value, r.value)) else None
  }

  predicate Newer(left: string, right: string) {
    Compare(left, right) == Some(1)
  }

  // ------------------------------------------------------ canonical spelling

  /** Canonicalising twice changes nothing, so stored keys are their own spelling. */
  lemma CanonicalIdempotent(value: string)
    ensures Canonical(Canonical(value)) == Canonical(value)
    ensures Parse(Canonical(value)) == Parse(value)
  {
    var t := TrimSpace(value);
    assert Trimmed(Canonical(value));
    TrimmedIsFixed(Canonical(value));
  }

  // ------------------------------------------------------------- total order

  /** What every identifier of a parsed prerelease satisfies. */
  predicate Sound(part: string) { Identifier(part) && !PaddedNumber(part) }

  predicate SoundList(parts: seq<string>) { forall part :: part in parts ==> Sound(part) }

  predicate WellFormed(v: Version) {
    v.pre != "" ==> SoundList(Split(v.pre, '.'))
  }

  lemma IdentifiersAntisymmetric(a: string, b: string)
    requires Sound(a) && Sound(b) && a != b
    ensures CompareIdentifiers(a, b) == -CompareIdentifiers(b, a)
    ensures CompareIdentifiers(a, b) in {-1, 1}
  {
    LexTotal(a, b);
    if Digits(a) && Digits(b) {
      DecimalInjective(a, b);
    }
  }

  lemma IdentifiersTransitive(a: string, b: string, c: string)
    requires Sound(a) && Sound(b) && Sound(c) && a != b && b != c
    requires CompareIdentifiers(a, b) == -1 && CompareIdentifiers(b, c) == -1
    ensures a != c && CompareIdentifiers(a, c) == -1
  {
    if a == c {
      IdentifiersAntisymmetric(a, b);
    } else if NumericIdentifier(a).None? && NumericIdentifier(b).None? && NumericIdentifier(c).None? {
      LexTransitive(a, b, c);
    }
  }

  lemma {:induction false} ListsAntisymmetric(l: seq<string>, r: seq<string>)
    requires SoundList(l) && SoundList(r)
    ensures CompareLists(l, r) == -CompareLists(r, l)
    ensures CompareLists(l, r) in {-1, 0, 1}
    ensures CompareLists(l, r) == 0 <==> l == r
  {
    if l != [] && r != [] {
      assert l == [l[0]] + l[1..] && r == [r[0]] + r[1..];
      if l[0] == r[0] {
        ListsAntisymmetric(l[1..], r[1..]);
      } else {
        IdentifiersAntisymmetric(l[0], r[0]);
      }
    }
  }

  lemma {:induction false} ListsTransitive(a: seq<string>, b: seq<string>, c: seq<string>)
    requires SoundList(a) && SoundList(b) && SoundList(c)
    requires CompareLists(a, b) == -1 && CompareLists(b, c) == -1
    ensures CompareLists(a, c) == -1
  {
    if a != [] {
      if a[0] == b[0] && b[0] == c[0] {
        ListsTransitive(a[1..], b[1..], c[1..]);
      } else if a[0] != b[0] && b[0] != c[0] {
        IdentifiersTransitive(a[0], b[0], c[0]);
      }
    }
  }

  lemma PreAntisymmetric(l: Version, r: Version)
    requires WellFormed(l) && WellFormed(r)
    ensures ComparePre(l.pre, r.pre) == -ComparePre(r.pre, l.pre)
    ensures ComparePre(l.pre, r.pre) in {-1, 0, 1}
    ensures ComparePre(l.pre, r.pre) == 0 <==> l.pre == r.pre
  {
    if l.pre != "" && r.pre != "" && l.pre != r.pre {
      ListsAntisymmetric(Split(l.pre, '.'), Split(r.pre, '.'));
      JoinSplit(l.pre, '.');
      JoinSplit(r.pre, '.');
    }
  }

  lemma PreTransitive(a: Version, b: Version, c: Version)
    requires WellFormed(a) && WellFormed(b) && WellFormed(c)
    requires ComparePre(a.pre, b.pre) == -1 && ComparePre(b.pre, c.pre) == -1
    ensures ComparePre(a.pre, c.pre) == -1
  {
    if a.pre != "" && c.pre != "" {
      ListsTransitive(Split(a.pre, '.'), Split(b.pre, '.'), Split(c.pre, '.'));
      ListsAntisymmetric(Split(a.pre, '.'), Split(c.pre, '.'));
    }
  }

  lemma CompareParsedLaws(l: Version, r: Version)
    requires WellFormed(l) && WellFormed(r)
    ensures CompareParsed(l, r) == -CompareParsed(r, l)
    ensures CompareParsed(l, r) in {-1, 0, 1}
    ensures CompareParsed(l, r) == 0 <==> l == r
  {
    PreAntisymmetric(l, r);
  }

  lemma CompareParsedTransitive(a: Version, b: Version, c: Version)
    requires WellFormed(a) && WellFormed(b) && WellFormed(c)
    requires CompareParsed(a, b) == -1 && CompareParsed(b, c) == -1
    ensures CompareParsed(a, c) == -1
  {
    if ComparePre(a.pre, b.pre) == -1 && ComparePre(b.pre, c.pre) == -1 {
      PreTransitive(a, b, c);
    }
  }

  /** The comparator is a total preorder on the strings that parse: it answers
      exactly on them, its sign is antisymmetric, and 0 means that core and
      prerelease agree. */
  lemma ComparatorTotal(s: string, t: string)
    ensures Compare(s, t).Some? <==> Parse(s).Some? && Parse(t).Some?
    ensures Compare(s, t).Some? ==>
              && Compare(t, s) == Some(-Compare(s, t).value)
              && Compare(s, t).value in {-1, 0, 1}
              && (Compare(s, t).value == 0 <==> Parse(s) == Parse(t))
  {
    if Compare(s, t).Some? {
      CompareParsedLaws(Parse(s).value, Parse(t).value);
    }
  }

  /** Transitivity of "not newer", strict as soon as one step is strict. */
  lemma ComparatorTransitive(s: string, t: string, u: string)
    requires Compare(s, t).Some? && Compare(t, u).Some?
    requires Compare(s, t).value <= 0 && Compare(t, u).value <= 0
    ensures Compare(s, u).Some? && Compare(s, u).value <= 0
    ensures Compare(s, u).value == 0 <==> Compare(s, t).value == 0 && Compare(t, u).value == 0
  {
    var a, b, c := Parse(s).value, Parse(t).value, Parse(u).value;
    CompareParsedLaws(a, b);
    CompareParsedLaws(b, c);
    CompareParsedLaws(a, c);
    if a != b && b != c {
      CompareParsedTransitive(a, b, c);
    }
  }

  lemma NewerIsStrictOrder(s: string, t: string, u: string)
    ensures !Newer(s, s)
    ensures Newer(s, t) ==> !Newer(t, s) && s != t
    ensures Newer(s, t) && Newer(t, u) ==> Newer(s, u)
  {
    ComparatorTotal(s, s);
    ComparatorTotal(s, t);
    ComparatorTotal(t, u);
    ComparatorTotal(s, u);
    if Newer(s, t) && Newer(t, u) {
      ComparatorTransitive(u, t, s);
      ComparatorTotal(u, s);
    }
  }

  // ---------------------------------------------------------- latest version

  /** findLatestPublishedVersion over the rows in the order they are scanned. */
  function Latest(rows: seq<string>): string {
    if rows == [] then "" else LaterOf(Latest(rows[..|rows| - 1]), rows[|rows| - 1])
  }

  function LaterOf(latest: string, candidate: string): string {
    if latest == "" then (if Compare(candidate, candidate).Some? then candidate else "")
    else if Compare(candidate, latest).Some? && Compare(candidate, latest).value > 0 then candidate
    else latest
  }

  lemma EmptyDoesNotParse()
    ensures Parse("").None?
  {
    assert Canonical("") == "";
  }

  ghost predicate IsMaximum(latest: string, rows: seq<string>) {
    && (latest == "" ==> forall row :: row in rows ==> Parse(row).None?)
    && (latest != "" ==>
          && latest in rows
          && Parse(latest).Some?
          && forall row :: row in rows && Parse(row).Some? ==> Compare(row, latest).value <= 0)
  }

  /** Scanning one more row keeps the maximum of the rows seen. */
  lemma LaterOfMaximum(seen: seq<string>, latest: string, row: string)
    requires IsMaximum(latest, seen)
    ensures IsMaximum(LaterOf(latest, row), seen + [row])
  {
    var next := LaterOf(latest, row);
    EmptyDoesNotParse();
    ComparatorTotal(row, row);
    ComparatorTotal(row, latest);
    if latest != "" && next != latest {
      forall other | other in seen && Parse(other).Some? ensures Compare(other, next).value <= 0 {
        ComparatorTransitive(other, latest, next);
      }
    }
  }

  /** A maximum-precedence row that parses, or nothing when no row parses. */
  lemma {:induction false} LatestIsMaximum(rows: seq<string>)
    ensures IsMaximum(Latest(rows), rows)
  {
    if rows != [] {
      var init := rows[..|rows| - 1];
      LatestIsMaximum(init);
      LaterOfMaximum(init, Latest(init), rows[|rows| - 1]);
      assert rows == init + [rows[|rows| - 1]];
    }
  }

  /** The precedence found does not depend on the order of the rows. */
  lemma LatestOrderIndependent(p: seq<string>, q: seq<string>)
    requires forall row :: row in p <==> row in q
    ensures Latest(p) == "" <==> Latest(q) == ""
    ensures Latest(p) != "" ==> Compare(Latest(p), Latest(q)) == Some(0)
  {
    LatestIsMaximum(p);
    LatestIsMaximum(q);
    EmptyDoesNotParse();
    if Latest(p) != "" && Latest(q) != "" {
      ComparatorTotal(Latest(p), Latest(q));
    }
  }
}

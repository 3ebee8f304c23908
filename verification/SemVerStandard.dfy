/** Semantic Versioning 2.0.0 as an independent definition, and how far the
    parser and the comparator of module SemVer agree with it: the parser on every
    string, the comparator up to one exactly described family of prerelease
    identifiers. */
module SemVerStandard {
  import opened Text
  import opened SemVer

  // ------------------------------------------------- sections 2, 9 and 10

  /** A version taken apart: three core numbers, prerelease and build identifiers. */
  datatype Release = Release(major: string, minor: string, patch: string, pre: seq<string>, build: seq<string>)

  /** A number without leading zeros. */
  predicate Number(s: string) { Digits(s) && (|s| > 1 ==> s[0] != '0') }

  predicate Grammatical(v: Release) {
    && Number(v.major) && Number(v.minor) && Number(v.patch)
    && (forall part :: part in v.pre ==> Identifier(part) && (Digits(part) ==> Number(part)))
    && (forall part :: part in v.build ==> Identifier(part))
  }

  function CoreText(v: Release): string {
    Join([v.major, v.minor, v.patch], '.')
  }

  function PreText(v: Release): string {
    if v.pre == [] then "" else Join(v.pre, '.')
  }

  function Suffix(mark: char, parts: seq<string>): string {
    if parts == [] then "" else [mark] + Join(parts, '.')
  }

  function Render(v: Release): string
    requires Grammatical(v)
  {
    CoreText(v) + Suffix('-', v.pre) + Suffix('+', v.build)
  }

  predicate FitsInt64(v: Release)
    requires Grammatical(v)
  {
    Decimal(v.major) <= MAX_INT64 && Decimal(v.minor) <= MAX_INT64 && Decimal(v.patch) <= MAX_INT64
  }

  /** What the parser should make of a grammatical version. */
  function Parsed(v: Release): Version
    requires Grammatical(v)
  {
    Version(Decimal(v.major), Decimal(v.minor), Decimal(v.patch), PreText(v))
  }

  lemma {:induction false} JoinOnlyEmpty(parts: seq<string>, sep: char)
    requires parts != []
    ensures Join(parts, sep) == "" <==> parts == [""]
  {
    if |parts| == 1 {
      assert parts == [parts[0]];
    }
  }

  lemma ListOfParts(parts: seq<string>, forbidPadding: bool)
    requires parts != [] && forall part :: part in parts ==> Identifier(part)
    ensures IdentifierList(Join(parts, '.'), forbidPadding)
      <==> forall part :: part in parts ==> !(forbidPadding && PaddedNumber(part))
  {
    JoinOnlyEmpty(parts, '.');
    assert parts[0] in parts;
    SplitJoin(parts, '.');
  }

  lemma CoreCharacters(v: Release, c: char)
    requires Grammatical(v) && c in CoreText(v)
    ensures c == '.' || IsDigit(c)
  {
    JoinChars([v.major, v.minor, v.patch], '.', c);
  }

  lemma PreCharacters(v: Release, c: char)
    requires Grammatical(v) && c in Suffix('-', v.pre)
    ensures c == '.' || IdentifierChar(c)
  {
    if c != '-' {
      JoinChars(v.pre, '.', c);
    }
  }

  function Front(v: Release): string { CoreText(v) + Suffix('-', v.pre) }

  /** The text before the first plus sign, and the build after it. */
  lemma RenderSplits(v: Release)
    requires Grammatical(v)
    ensures Split(Render(v), '+') == if v.build == [] then [Front(v)] else [Front(v), Join(v.build, '.')]
  {
    if '+' in Front(v) {
      if '+' in CoreText(v) { CoreCharacters(v, '+'); } else { PreCharacters(v, '+'); }
    }
    if v.build == [] {
      SplitPrefix(Front(v), "", '+');
      assert Render(v) == Front(v);
    } else {
      var build := Join(v.build, '.');
      assert Render(v) == Front(v) + ['+'] + build;
      SplitPrefix(Front(v), build, '+');
      if '+' in build {
        JoinChars(v.build, '.', '+');
      }
      SplitPrefix(build, "", '+');
    }
  }

  lemma FrontCuts(v: Release)
    requires Grammatical(v)
    ensures Cut(Front(v), '-') == (CoreText(v), if v.pre == [] then None else Some(PreText(v)))
  {
    if '-' in CoreText(v) {
      CoreCharacters(v, '-');
    }
    CutPrefix(CoreText(v), PreText(v), '-');
    if v.pre == [] {
      assert Front(v) == CoreText(v);
    } else {
      assert Front(v) == CoreText(v) + ['-'] + PreText(v);
    }
  }

  lemma FrontParses(v: Release)
    requires Grammatical(v)
    ensures ParseFront(Front(v)) == if FitsInt64(v) then Some(Parsed(v)) else None
  {
    FrontCuts(v);
    SplitJoin([v.major, v.minor, v.patch], '.');
    if v.pre != [] {
      ListOfParts(v.pre, true);
    }
  }

  lemma RenderNonEmpty(v: Release)
    requires Grammatical(v)
    ensures Render(v) != "" && Render(v)[0] == v.major[0]
  {
    assert Join([v.major, v.minor, v.patch], '.')[0] == v.major[0];
  }

  /** Every grammatical version is read back, core overflow being the one reason
      to refuse it. */
  lemma ParseRender(value: string, v: Release)
    requires Grammatical(v) && Canonical(value) == Render(v)
    ensures Parse(value) == if FitsInt64(v) then Some(Parsed(v)) else None
  {
    RenderNonEmpty(v);
    RenderSplits(v);
    FrontParses(v);
    if v.build != [] {
      ListOfParts(v.build, false);
    }
  }

  /** The grammatical reading of a string the parser accepts. */
  function DissectFront(front: string, build: seq<string>): Release
    requires ParseFront(front).Some?
  {
    var (core, pre) := Cut(front, '-');
    var core := Split(core, '.');
    Release(core[0], core[1], core[2], if pre.Some? then Split(pre.value, '.') else [], build)
  }

  function Dissect(value: string): Release
    requires Parse(value).Some?
  {
    var buildParts := Split(Canonical(value), '+');
    DissectFront(buildParts[0], if |buildParts| == 2 then Split(buildParts[1], '.') else [])
  }

  lemma CoreNumberIsNumber(s: string)
    requires CoreNumber(s).Some?
    ensures Number(s) && Decimal(s) == CoreNumber(s).value <= MAX_INT64
  {
  }

  lemma IdentifiersOfList(s: string)
    requires IdentifierList(s, true)
    ensures forall part :: part in Split(s, '.') ==> Identifier(part) && (Digits(part) ==> Number(part))
    ensures Join(Split(s, '.'), '.') == s
  {
    JoinSplit(s, '.');
  }

  lemma FrontIsCorePlusPre(front: string, parts: seq<string>)
    requires Cut(front, '-').1.None? ==> parts == []
    requires Cut(front, '-').1.Some? ==> parts != [] && Join(parts, '.') == Cut(front, '-').1.value
    ensures front == Cut(front, '-').0 + Suffix('-', parts)
  {
    CutParts(front, '-');
  }

  lemma FrontIsGrammatical(front: string, build: seq<string>)
    requires ParseFront(front).Some?
    requires forall part :: part in build ==> Identifier(part)
    ensures var v := DissectFront(front, build);
      Grammatical(v) && FitsInt64(v) && Front(v) == front
  {
    var v := DissectFront(front, build);
    var (head, pre) := Cut(front, '-');
    CoreNumberIsNumber(v.major);
    CoreNumberIsNumber(v.minor);
    CoreNumberIsNumber(v.patch);
    if pre.Some? {
      IdentifiersOfList(pre.value);
    }
    assert CoreText(v) == head by {
      assert [v.major, v.minor, v.patch] == Split(head, '.');
      JoinSplit(head, '.');
    }
    FrontIsCorePlusPre(front, v.pre);
  }

  lemma ParseIsGrammatical(value: string)
    requires Parse(value).Some?
    ensures var v := Dissect(value);
      Grammatical(v) && FitsInt64(v) && Render(v) == Canonical(value)
  {
    var text, v := Canonical(value), Dissect(value);
    var buildParts := Split(text, '+');
    JoinSplit(text, '+');
    FrontIsGrammatical(buildParts[0], v.build);
    if |buildParts| == 2 {
      JoinSplit(buildParts[1], '.');
      assert text == Front(v) + (['+'] + buildParts[1]);
    } else {
      assert text == Front(v);
    }
  }

  /** The parser accepts exactly the canonical spellings of grammatical versions
      whose core numbers fit int64. */
  lemma ParserAcceptsStandard(value: string)
    ensures Parse(value).Some? <==> exists v :: Grammatical(v) && FitsInt64(v) && Render(v) == Canonical(value)
    ensures forall v :: Grammatical(v) && FitsInt64(v) && Render(v) == Canonical(value) ==>
      Parse(value) == Some(Parsed(v))
  {
    if Parse(value).Some? {
      ParseIsGrammatical(value);
      var v := Dissect(value);
      assert Grammatical(v) && FitsInt64(v) && Render(v) == Canonical(value);
    }
    forall v | Grammatical(v) && FitsInt64(v) && Render(v) == Canonical(value)
      ensures Parse(value) == Some(Parsed(v))
    {
      ParseRender(value, v);
    }
  }

  /** Build metadata never decides a comparison (section 10). */
  lemma BuildIgnored(s: string, t: string, v: Release, build: seq<string>)
    requires Grammatical(v) && Canonical(s) == Render(v)
    requires Grammatical(v.(build := build)) && Canonical(t) == Render(v.(build := build))
    ensures Parse(s) == Parse(t)
    ensures forall other :: Compare(s, other) == Compare(t, other) && Compare(other, s) == Compare(other, t)
  {
    ParseRender(s, v);
    ParseRender(t, v.(build := build));
  }

  // -------------------------------------------------------------- section 11

  /** Precedence of two identifiers: numbers by value and below everything else,
      the rest in ASCII order. */
  function StandardIdentifiers(a: string, b: string): int {
    if Digits(a) && Digits(b) then Sign(Decimal(a), Decimal(b))
    else if Digits(a) then -1
    else if Digits(b) then 1
    else if LexLess(a, b) then -1
    else if LexLess(b, a) then 1
    else 0
  }

  function StandardLists(l: seq<string>, r: seq<string>): int {
    if l == [] || r == [] then Sign(|l|, |r|)
    else
      var head := StandardIdentifiers(l[0], r[0]);
      if head != 0 then head else StandardLists(l[1..], r[1..])
  }

  function Standard(l: Release, r: Release): int
    requires Grammatical(l) && Grammatical(r)
  {
    var major := Sign(Decimal(l.major), Decimal(r.major));
    var minor := Sign(Decimal(l.minor), Decimal(r.minor));
    var patch := Sign(Decimal(l.patch), Decimal(r.patch));
    if major != 0 then major
    else if minor != 0 then minor
    else if patch != 0 then patch
    else StandardPre(l.pre, r.pre)
  }

  /** A release is above its prereleases. */
  function StandardPre(l: seq<string>, r: seq<string>): int {
    if l == [] || r == [] then Sign(|r|, |l|) else StandardLists(l, r)
  }

  /** A number beyond int64 that text order puts after b although it belongs before. */
  predicate Misplaced(a: string, b: string) {
    && Digits(a) && Decimal(a) > MAX_INT64
    && LexLess(b, a)
    && (Digits(b) ==> |a| < |b|)
  }

  /** Where two lists first differ, if both still have an identifier there. */
  function FirstDifference(l: seq<string>, r: seq<string>): Option<(string, string)> {
    if l == [] || r == [] then None
    else if l[0] != r[0] then Some((l[0], r[0]))
    else FirstDifference(l[1..], r[1..])
  }

  predicate OutOfOrder(l: seq<string>, r: seq<string>) {
    match FirstDifference(l, r)
    case None => false
    case Some((a, b)) => Misplaced(a, b) || Misplaced(b, a)
  }

  lemma IdentifiersAgree(a: string, b: string)
    requires Sound(a) && Sound(b) && a != b
    ensures CompareIdentifiers(a, b) == StandardIdentifiers(a, b) <==> !Misplaced(a, b) && !Misplaced(b, a)
    ensures StandardIdentifiers(a, b) in {-1, 1} && CompareIdentifiers(a, b) in {-1, 1}
  {
    LexTotal(a, b);
    if Digits(a) && Digits(b) {
      DecimalInjective(a, b);
      if |a| == |b| {
        DecimalLex(a, b);
      } else if |a| < |b| {
        DecimalLonger(a, b);
      } else {
        DecimalLonger(b, a);
      }
    }
  }

  lemma {:induction false} ListsAgree(l: seq<string>, r: seq<string>)
    requires SoundList(l) && SoundList(r)
    ensures CompareLists(l, r) == StandardLists(l, r) <==> !OutOfOrder(l, r)
    ensures OutOfOrder(l, r) ==> CompareLists(l, r) == -StandardLists(l, r) != 0
  {
    if l != [] && r != [] {
      if l[0] == r[0] {
        LexTotal(l[0], r[0]);
        ListsAgree(l[1..], r[1..]);
      } else {
        IdentifiersAgree(l[0], r[0]);
      }
    }
  }

  predicate SameCore(l: Release, r: Release)
    requires Grammatical(l) && Grammatical(r)
  {
    Decimal(l.major) == Decimal(r.major) && Decimal(l.minor) == Decimal(r.minor) && Decimal(l.patch) == Decimal(r.patch)
  }

  lemma PreAgainstStandard(l: Release, r: Release)
    requires Grammatical(l) && Grammatical(r)
    ensures OutOfOrder(l.pre, r.pre) ==> ComparePre(PreText(l), PreText(r)) == -StandardPre(l.pre, r.pre) != 0
    ensures !OutOfOrder(l.pre, r.pre) ==> ComparePre(PreText(l), PreText(r)) == StandardPre(l.pre, r.pre)
  {
    PreTextEmpty(l);
    PreTextEmpty(r);
    if l.pre != [] && r.pre != [] {
      SplitJoin(l.pre, '.');
      SplitJoin(r.pre, '.');
      ListsAgree(l.pre, r.pre);
      ListsAntisymmetric(l.pre, r.pre);
    }
  }

  lemma CompareRendered(s: string, t: string, l: Release, r: Release)
    requires Grammatical(l) && FitsInt64(l) && Canonical(s) == Render(l)
    requires Grammatical(r) && FitsInt64(r) && Canonical(t) == Render(r)
    ensures Compare(s, t) == Some(CompareParsed(Parsed(l), Parsed(r)))
  {
    ParseRender(s, l);
    ParseRender(t, r);
  }

  /** Where the misplaced number decides, the comparator reverses section 11. */
  lemma ComparatorAgainstStandard(s: string, t: string, l: Release, r: Release)
    requires Grammatical(l) && FitsInt64(l) && Canonical(s) == Render(l)
    requires Grammatical(r) && FitsInt64(r) && Canonical(t) == Render(r)
    ensures Compare(s, t).Some?
    ensures SameCore(l, r) && OutOfOrder(l.pre, r.pre) ==> Compare(s, t).value == -Standard(l, r) != 0
    ensures !(SameCore(l, r) && OutOfOrder(l.pre, r.pre)) ==> Compare(s, t).value == Standard(l, r)
  {
    CompareRendered(s, t, l, r);
    PreAgainstStandard(l, r);
  }

  /** The comparator agrees with section 11 on two parsed versions exactly when
      it is not deciding by a misplaced number: same core, and at the first
      difference of the prereleases a number beyond int64 that text order puts on
      the wrong side. */
  lemma ComparatorAgreesExactly(s: string, t: string, l: Release, r: Release)
    requires Grammatical(l) && FitsInt64(l) && Canonical(s) == Render(l)
    requires Grammatical(r) && FitsInt64(r) && Canonical(t) == Render(r)
    ensures Compare(s, t) == Some(Standard(l, r)) <==> !(SameCore(l, r) && OutOfOrder(l.pre, r.pre))
  {
    ComparatorAgainstStandard(s, t, l, r);
  }

  lemma PreTextEmpty(v: Release)
    requires Grammatical(v)
    ensures PreText(v) == "" <==> v.pre == []
  {
    if v.pre != [] {
      JoinOnlyEmpty(v.pre, '.');
      assert v.pre[0] in v.pre;
    }
  }

  lemma {:induction false} FirstDifferenceMember(l: seq<string>, r: seq<string>)
    ensures FirstDifference(l, r).Some? ==>
      FirstDifference(l, r).value.0 in l && FirstDifference(l, r).value.1 in r
  {
    if l != [] && r != [] && l[0] == r[0] {
      FirstDifferenceMember(l[1..], r[1..]);
    }
  }

  /** In particular it agrees whenever every numeric prerelease identifier fits int64. */
  lemma ComparatorAgreesWithinInt64(s: string, t: string, l: Release, r: Release)
    requires Grammatical(l) && FitsInt64(l) && Canonical(s) == Render(l)
    requires Grammatical(r) && FitsInt64(r) && Canonical(t) == Render(r)
    requires forall part :: (part in l.pre || part in r.pre) && Digits(part) ==> Decimal(part) <= MAX_INT64
    ensures Compare(s, t) == Some(Standard(l, r))
  {
    ComparatorAgreesExactly(s, t, l, r);
    FirstDifferenceMember(l.pre, r.pre);
  }

  /** Text without white space that starts with a digit is its own canonical form. */
  lemma RenderIsCanonical(v: Release)
    requires Grammatical(v)
    ensures Canonical(Render(v)) == Render(v)
  {
    var text := Render(v);
    forall c | c in text ensures !IsSpace(c) {
      if c in CoreText(v) {
        CoreCharacters(v, c);
      } else if c in Suffix('-', v.pre) {
        PreCharacters(v, c);
      } else if c != '+' {
        JoinChars(v.build, '.', c);
      }
    }
    RenderNonEmpty(v);
    assert v.major[0] in v.major;
    assert text[0] in text && text[|text| - 1] in text;
    TrimmedIsFixed(text);
  }

  /** Twenty digits with a non-zero head are beyond int64. */
  lemma BeyondInt64(s: string)
    requires Digits(s) && |s| >= 20 && s[0] != '0'
    ensures Decimal(s) > MAX_INT64
  {
    var p := Power10(|s| - 1);
    assert Decimal(s) == Digit(s[0]) * p + Decimal(s[1..]) by { DecimalHead(s); }
    assert Digit(s[0]) * p >= p by {
      LeadingDigit(0, Digit(s[0]), p, p - 1);
    }
    Power10Monotone(19, |s| - 1);
    assert Power10(4) == 10_000;
    assert Power10(8) == 10_000 * Power10(4);
    assert Power10(12) == 10_000 * Power10(8);
    assert Power10(16) == 10_000 * Power10(12);
    assert Power10(19) == 1_000 * Power10(16);
  }

  const NINES := Release("1", "0", "0", ["99999999999999999999"], [])
  const NEXT := Release("1", "0", "0", ["100000000000000000000"], [])

  lemma NinesAreGrammatical()
    ensures Grammatical(NINES) && Grammatical(NEXT)
    ensures Digits(NINES.pre[0]) && Digits(NEXT.pre[0])
  {
  }

  /** A number beyond int64, and a longer one that starts with a smaller digit. */
  lemma LongerReverses(a: string, b: string)
    requires Digits(a) && Digits(b) && 20 <= |a| < |b| && '0' != b[0] < a[0] && a[0] != '0'
    ensures Misplaced(a, b) && StandardIdentifiers(a, b) == -1
  {
    BeyondInt64(a);
    DecimalLonger(a, b);
  }

  lemma NinesOutOfOrder()
    ensures Grammatical(NINES) && Grammatical(NEXT)
    ensures OutOfOrder(NINES.pre, NEXT.pre) && Standard(NINES, NEXT) == -1
  {
    NinesAreGrammatical();
    LongerReverses(NINES.pre[0], NEXT.pre[0]);
    assert FirstDifference(NINES.pre, NEXT.pre) == Some((NINES.pre[0], NEXT.pre[0]));
  }

  /** A concrete pair the comparator orders the wrong way round: 10^20 - 1 and 10^20. */
  lemma OverflowReversesOrder()
    ensures Grammatical(NINES) && Grammatical(NEXT)
    ensures Standard(NINES, NEXT) == -1
    ensures Compare(Render(NINES), Render(NEXT)) == Some(1)
  {
    NinesOutOfOrder();
    assert Decimal("1") == 1 && Decimal("0") == 0;
    RenderIsCanonical(NINES);
    RenderIsCanonical(NEXT);
    ComparatorAgainstStandard(Render(NINES), Render(NEXT), NINES, NEXT);
  }
}

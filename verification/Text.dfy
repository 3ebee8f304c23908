/** String operations the market server takes from Go's standard library, with
    the laws the other modules rest on. A string is a sequence of Unicode scalar
    values; all the identifiers compared byte-wise in the server are ASCII, where
    byte order and character order coincide. */
module Text {
  datatype Option<+T> = None | Some(value: T)

  // ---------------------------------------------------------------- trimming

  /** unicode.IsSpace */
  predicate IsSpace(c: char) {
    || c == ' ' || '\t' <= c <= '\r' || c == '\U{85}' || c == '\U{A0}' || c == '\U{1680}'
    || '\U{2000}' <= c <= '\U{200A}' || c == '\U{2028}' || c == '\U{2029}' || c == '\U{202F}'
    || c == '\U{205F}' || c == '\U{3000}'
  }

  function TrimLeft(s: string): (r: string)
    ensures r == "" || !IsSpace(r[0])
  {
    if s != "" && IsSpace(s[0]) then TrimLeft(s[1..]) else s
  }

  function TrimRight(s: string): (r: string)
    ensures r <= s
    ensures r == "" || !IsSpace(r[|r| - 1])
  {
    if s != "" && IsSpace(s[|s| - 1]) then TrimRight(s[..|s| - 1]) else s
  }

  /** strings.TrimSpace */
  function TrimSpace(s: string): (r: string)
    ensures Trimmed(r)
  {
    TrimRight(TrimLeft(s))
  }

  predicate Trimmed(s: string) {
    s != "" ==> !IsSpace(s[0]) && !IsSpace(s[|s| - 1])
  }

  /** The white space of Unicode, by code point. */
  lemma SpacesAre(c: char)
    ensures IsSpace(c) <==>
      || c as int in {9, 10, 11, 12, 13, 32, 0x85, 0xA0, 0x1680, 0x2028, 0x2029, 0x202F, 0x205F, 0x3000}
      || 0x2000 <= c as int <= 0x200A
  {
  }

  predicate Blank(s: string) { forall i :: 0 <= i < |s| ==> IsSpace(s[i]) }

  lemma {:induction false} LeftIsBlank(s: string)
    ensures |TrimLeft(s)| <= |s| && s[|s| - |TrimLeft(s)|..] == TrimLeft(s) && Blank(s[..|s| - |TrimLeft(s)|])
  {
    if s != "" && IsSpace(s[0]) {
      LeftIsBlank(s[1..]);
    }
  }

  lemma {:induction false} RightIsBlank(s: string)
    ensures Blank(s[|TrimRight(s)|..])
  {
    if s != "" && IsSpace(s[|s| - 1]) {
      RightIsBlank(s[..|s| - 1]);
    }
  }

  /** Trimming takes white space from both ends, and leaves none there. */
  lemma TrimSpaceIs(s: string) returns (before: string, after: string)
    ensures s == before + TrimSpace(s) + after
    ensures Blank(before) && Blank(after) && Trimmed(TrimSpace(s))
  {
    var left := TrimLeft(s);
    LeftIsBlank(s);
    RightIsBlank(left);
    before, after := s[..|s| - |left|], left[|TrimSpace(s)|..];
    assert left == TrimSpace(s) + after;
  }

  lemma BlankIsEmpty(s: string)
    ensures TrimSpace(s) == "" <==> Blank(s)
  {
    var before, after := TrimSpaceIs(s);
    if TrimSpace(s) == "" {
      assert s == before + after;
    } else {
      assert s[|before|] == TrimSpace(s)[0];
    }
  }

  lemma TrimmedIsFixed(s: string)
    requires Trimmed(s)
    ensures TrimSpace(s) == s
  {
  }

  // ------------------------------------------------------- splitting, joining

  /** strings.Split with a one-character separator */
  function Split(s: string, sep: char): (parts: seq<string>)
    ensures parts != []
  {
    if s == "" then [""]
    else
      var rest := Split(s[1..], sep);
      if s[0] == sep then [""] + rest else [[s[0]] + rest[0]] + rest[1..]
  }

  /** strings.Join with a one-character separator */
  function Join(parts: seq<string>, sep: char): string
    requires parts != []
  {
    if |parts| == 1 then parts[0] else parts[0] + [sep] + Join(parts[1..], sep)
  }

  /** strings.SplitN(s, sep, 2): the text before the first separator and, when
      there is one, the text after it. */
  function Cut(s: string, sep: char): (string, Option<string>) {
    if s == "" then ("", None)
    else if s[0] == sep then ("", Some(s[1..]))
    else var (before, after) := Cut(s[1..], sep); ([s[0]] + before, after)
  }

  lemma {:induction false} JoinOfSplit(s: string, sep: char)
    ensures Join(Split(s, sep), sep) == s
  {
    if s != "" {
      JoinOfSplit(s[1..], sep);
      if s[0] == sep {
        assert Split(s, sep)[1..] == Split(s[1..], sep);
      } else {
        JoinPrepend(s[0], Split(s[1..], sep), sep);
      }
    }
  }

  lemma JoinPrepend(c: char, parts: seq<string>, sep: char)
    requires parts != []
    ensures Join([[c] + parts[0]] + parts[1..], sep) == [c] + Join(parts, sep)
  {
    assert ([[c] + parts[0]] + parts[1..])[1..] == parts[1..];
  }

  lemma {:induction false} PartsHaveNoSeparator(s: string, sep: char, i: nat)
    requires i < |Split(s, sep)|
    ensures sep !in Split(s, sep)[i]
  {
    if s != "" {
      var rest := Split(s[1..], sep);
      if s[0] == sep {
        if i > 0 {
          PartsHaveNoSeparator(s[1..], sep, i - 1);
        }
      } else {
        PartsHaveNoSeparator(s[1..], sep, i);
      }
    }
  }

  lemma JoinSplit(s: string, sep: char)
    ensures Join(Split(s, sep), sep) == s
    ensures forall part :: part in Split(s, sep) ==> sep !in part
  {
    JoinOfSplit(s, sep);
    forall part | part in Split(s, sep) ensures sep !in part {
      var i :| 0 <= i < |Split(s, sep)| && Split(s, sep)[i] == part;
      PartsHaveNoSeparator(s, sep, i);
    }
  }

  lemma {:induction false} SplitPrefix(a: string, b: string, sep: char)
    requires sep !in a
    ensures Split(a, sep) == [a]
    ensures Split(a + [sep] + b, sep) == [a] + Split(b, sep)
  {
    if a == "" {
      assert (a + [sep] + b)[1..] == b;
    } else {
      assert a[1..] + [sep] + b == (a + [sep] + b)[1..];
      SplitPrefix(a[1..], b, sep);
      assert a == [a[0]] + a[1..];
    }
  }

  lemma {:induction false} SplitJoin(parts: seq<string>, sep: char)
    requires parts != []
    requires forall part :: part in parts ==> sep !in part
    ensures Split(Join(parts, sep), sep) == parts
  {
    if |parts| == 1 {
      SplitPrefix(parts[0], "", sep);
    } else {
      SplitJoin(parts[1..], sep);
      SplitPrefix(parts[0], Join(parts[1..], sep), sep);
    }
  }

  lemma {:induction false} CutPrefix(a: string, b: string, sep: char)
    requires sep !in a
    ensures Cut(a, sep) == (a, None)
    ensures Cut(a + [sep] + b, sep) == (a, Some(b))
  {
    if a == "" {
      assert (a + [sep] + b)[1..] == b;
    } else {
      assert a[1..] + [sep] + b == (a + [sep] + b)[1..];
      CutPrefix(a[1..], b, sep);
      assert a == [a[0]] + a[1..];
    }
  }

  lemma {:induction false} CutParts(s: string, sep: char)
    ensures sep !in Cut(s, sep).0
    ensures match Cut(s, sep).1 case None => s == Cut(s, sep).0 case Some(after) => s == Cut(s, sep).0 + [sep] + after
  {
    if s != "" && s[0] != sep {
      CutParts(s[1..], sep);
      assert s == [s[0]] + s[1..];
    }
  }

  /** Every character of a joined text is the separator or comes from a part. */
  lemma {:induction false} JoinChars(parts: seq<string>, sep: char, c: char)
    requires parts != []
    requires c in Join(parts, sep)
    ensures c == sep || exists part :: part in parts && c in part
  {
    if |parts| > 1 && c !in parts[0] && c != sep {
      JoinChars(parts[1..], sep, c);
      var part :| part in parts[1..] && c in part;
      assert part in parts;
    }
  }

  // ------------------------------------------------------ lexicographic order

  /** Go's `<` on strings */
  predicate LexLess(a: string, b: string) {
    if b == "" then false
    else if a == "" then true
    else a[0] < b[0] || (a[0] == b[0] && LexLess(a[1..], b[1..]))
  }

  lemma {:induction false} LexTotal(a: string, b: string)
    ensures LexLess(a, b) || LexLess(b, a) || a == b
    ensures !(LexLess(a, b) && LexLess(b, a))
    ensures a == b ==> !LexLess(a, b)
  {
    if a != "" && b != "" {
      LexTotal(a[1..], b[1..]);
      assert a == [a[0]] + a[1..] && b == [b[0]] + b[1..];
    }
  }

  /** The first difference of the texts is at k, where a is smaller. */
  predicate SmallerAt(a: string, b: string, k: nat) { k < |a| && k < |b| && a[..k] == b[..k] && a[k] < b[k] }

  lemma SameStart(a: string, b: string, k: nat)
    requires 0 < k <= |a| && k <= |b| && a[..k] == b[..k]
    ensures a[0] == b[0]
  {
    assert a[0] == a[..k][0] && b[0] == b[..k][0];
  }

  /** One text comes before another that goes on where it ends, or that is larger where
      they first differ. */
  lemma {:induction false} LexLessIs(a: string, b: string)
    ensures LexLess(a, b) <==> (a <= b && a != b) || exists k: nat :: SmallerAt(a, b, k)
  {
    if a != "" && b != "" {
      LexLessIs(a[1..], b[1..]);
      assert a == [a[0]] + a[1..] && b == [b[0]] + b[1..];
      if a[0] == b[0] {
        if k: nat :| SmallerAt(a[1..], b[1..], k) {
          assert a[..k + 1] == [a[0]] + a[1..][..k] && b[..k + 1] == [b[0]] + b[1..][..k];
          assert SmallerAt(a, b, k + 1);
        }
        if k: nat :| SmallerAt(a, b, k) {
          assert a[..k][1..] == a[1..][..k - 1] && b[..k][1..] == b[1..][..k - 1];
          assert SmallerAt(a[1..], b[1..], k - 1);
        }
      } else {
        if a[0] < b[0] {
          assert SmallerAt(a, b, 0);
        }
        if k: nat :| SmallerAt(a, b, k) {
          if k > 0 {
            SameStart(a, b, k);
          }
        }
      }
    }
  }

  lemma {:induction false} LexTransitive(a: string, b: string, c: string)
    requires LexLess(a, b) && LexLess(b, c)
    ensures LexLess(a, c)
  {
    if a != "" {
      if a[0] == b[0] == c[0] {
        LexTransitive(a[1..], b[1..], c[1..]);
      }
    }
  }

  // ----------------------------------------------------------------- decimals

  predicate IsDigit(c: char) { '0' <= c <= '9' }

  predicate AllDigits(s: string) { forall c :: c in s ==> IsDigit(c) }

  function Digit(c: char): (d: nat)
    requires IsDigit(c)
    ensures d < 10
  {
    c as int - '0' as int
  }

  function Decimal(s: string): nat
    requires AllDigits(s)
  {
    if s == "" then 0 else Decimal(s[..|s| - 1]) * 10 + Digit(s[|s| - 1])
  }

  function Power10(n: nat): (p: nat)
    ensures p >= 1
  {
    if n == 0 then 1 else 10 * Power10(n - 1)
  }

  lemma {:induction false} Power10Monotone(m: nat, n: nat)
    requires m <= n
    ensures Power10(m) <= Power10(n)
  {
    if m < n {
      Power10Monotone(m, n - 1);
    }
  }

  lemma {:induction false} DecimalBound(s: string)
    requires AllDigits(s)
    ensures Decimal(s) < Power10(|s|)
  {
    if s != "" {
      DecimalBound(s[..|s| - 1]);
    }
  }

  /** The value read from the left: leading digit first. */
  lemma {:induction false} DecimalHead(s: string)
    requires AllDigits(s) && s != ""
    ensures Decimal(s) == Digit(s[0]) * Power10(|s| - 1) + Decimal(s[1..])
  {
    if |s| > 1 {
      var init := s[..|s| - 1];
      DecimalHead(init);
      assert s[1..][..|s[1..]| - 1] == init[1..];
      TenTimes(Digit(s[0]), Power10(|s| - 2));
    }
  }

  lemma TenTimes(d: nat, p: nat)
    ensures d * (10 * p) == 10 * (d * p)
  {
  }

  /** A larger leading digit outweighs everything after it. */
  lemma {:induction false} LeadingDigit(d: nat, e: nat, p: nat, x: nat)
    requires d < e && x < p
    ensures d * p + x < e * p
    decreases e
  {
    assert e * p == (e - 1) * p + p;
    if d < e - 1 {
      LeadingDigit(d, e - 1, p, x);
    }
  }

  /** On digit strings of one length, text order is numeric order. */
  lemma {:induction false} DecimalLex(a: string, b: string)
    requires AllDigits(a) && AllDigits(b) && |a| == |b|
    ensures LexLess(a, b) <==> Decimal(a) < Decimal(b)
    ensures a == b <==> Decimal(a) == Decimal(b)
  {
    if a != "" {
      var x, y, p := Digit(a[0]), Digit(b[0]), Power10(|a| - 1);
      assert Decimal(a) == x * p + Decimal(a[1..]) by { DecimalHead(a); }
      assert Decimal(b) == y * p + Decimal(b[1..]) by { DecimalHead(b); }
      DecimalBound(a[1..]);
      DecimalBound(b[1..]);
      assert a == [a[0]] + a[1..] && b == [b[0]] + b[1..];
      if x < y {
        LeadingDigit(x, y, p, Decimal(a[1..]));
      } else if y < x {
        LeadingDigit(y, x, p, Decimal(b[1..]));
      } else {
        DecimalLex(a[1..], b[1..]);
      }
    }
  }

  /** Without leading zeros, a longer digit string is a larger number. */
  lemma DecimalLonger(a: string, b: string)
    requires AllDigits(a) && AllDigits(b) && |a| < |b| && b[0] != '0'
    ensures Decimal(a) < Decimal(b)
  {
    var y, p := Digit(b[0]), Power10(|b| - 1);
    assert Decimal(b) == y * p + Decimal(b[1..]) by { DecimalHead(b); }
    assert Decimal(a) < p by {
      DecimalBound(a);
      Power10Monotone(|a|, |b| - 1);
    }
    LeadingDigit(0, y, p, Decimal(a));
  }

  /** Without leading zeros the value determines the digits. */
  lemma DecimalInjective(a: string, b: string)
    requires AllDigits(a) && AllDigits(b)
    requires |a| > 1 ==> a[0] != '0'
    requires |b| > 1 ==> b[0] != '0'
    requires a != "" && b != ""
    ensures Decimal(a) == Decimal(b) <==> a == b
  {
    if |a| == |b| {
      DecimalLex(a, b);
    } else if |a| < |b| {
      DecimalLonger(a, b);
    } else {
      DecimalLonger(b, a);
    }
  }

  /** strconv.Itoa on a natural number */
  function Itoa(n: nat): (s: string)
    ensures s != "" && AllDigits(s) && Decimal(s) == n
    ensures |s| > 1 ==> s[0] != '0'
    ensures n > 0 ==> s[0] != '0'
  {
    var last := ('0' as int + n % 10) as char;
    if n < 10 then [last]
    else
      var s := Itoa(n / 10) + [last];
      assert s[..|s| - 1] == Itoa(n / 10);
      s
  }

  // -------------------------------------------------------------------- case

  /** unicode.ToLower, exact on every character whose lower case is ASCII; any
      other character is not an ASCII letter before or after. */
  function LowerChar(c: char): char {
    if 'A' <= c <= 'Z' then (c as int + 32) as char
    else if c == '\U{130}' then 'i'
    else if c == '\U{212A}' then 'k'
    else c
  }

  /** strings.ToLower */
  function ToLower(s: string): (r: string)
    ensures |r| == |s|
  {
    if s == "" then "" else [LowerChar(s[0])] + ToLower(s[1..])
  }

  /** SQLite's NOCASE collation folds ASCII letters only. */
  function FoldChar(c: char): char {
    if 'A' <= c <= 'Z' then (c as int + 32) as char else c
  }

  function Fold(s: string): (r: string)
    ensures |r| == |s|
    ensures forall i :: 0 <= i < |s| ==> r[i] == FoldChar(s[i])
  {
    if s == "" then "" else [FoldChar(s[0])] + Fold(s[1..])
  }

  /** The same letter up to ASCII case. */
  predicate SameLetter(c: char, d: char) {
    || c == d
    || ('a' <= c <= 'z' && d as int + 32 == c as int)
    || ('a' <= d <= 'z' && c as int + 32 == d as int)
  }

  predicate SameWord(s: string, word: string) {
    |s| == |word| && forall i :: 0 <= i < |s| ==> SameLetter(s[i], word[i])
  }

  lemma FoldsAlike(s: string, t: string)
    ensures Fold(s) == Fold(t) <==> SameWord(s, t)
  {
    if SameWord(s, t) {
      assert Fold(s) == Fold(t);
    }
    if Fold(s) == Fold(t) {
      forall i | 0 <= i < |s| ensures SameLetter(s[i], t[i]) {
        assert Fold(s)[i] == Fold(t)[i];
      }
    }
  }

  /** Lower case: no letter is upper case, and none changes but in case; the dotted
      capital I and the Kelvin sign are the two others that become ASCII. */
  predicate Lowered(c: char, d: char) {
    if c == '\U{130}' then d == 'i'
    else if c == '\U{212A}' then d == 'k'
    else SameLetter(c, d) && !('A' <= d <= 'Z')
  }

  lemma {:induction false} ToLowerIs(s: string)
    ensures forall i :: 0 <= i < |s| ==> Lowered(s[i], ToLower(s)[i])
  {
    if s != "" {
      ToLowerIs(s[1..]);
    }
  }
}

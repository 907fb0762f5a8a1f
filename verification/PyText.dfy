/** The fragment of Python's string and integer formatting that the episode keys rely on:
    `strip`, `upper`, removal of blanks, `int(digits)` and the `:02d` format.
    Characters outside ASCII are treated as ordinary, caseless, non-digit characters. */
module PyText {

  datatype Option<+T> = None | Some(value: T)

  /** A loosely typed numeric field: missing or null, not convertible by `int`, or a number. */
  datatype Field = Absent | Unreadable | Number(n: int)

  // ---------- characters ----------

  predicate IsSpace(c: char) {
    c == ' ' || '\t' <= c <= '\r' || '\U{1c}' <= c <= '\U{1f}'
  }

  predicate IsDigit(c: char) {
    '0' <= c <= '9'
  }

  function DigitValue(c: char): nat
    requires IsDigit(c)
  {
    c as nat - '0' as nat
  }

  function DigitChar(d: nat): (c: char)
    requires d < 10
    ensures IsDigit(c) && DigitValue(c) == d
  {
    (d + '0' as nat) as char
  }

  function UpperChar(c: char): char {
    if 'a' <= c <= 'z' then (c as nat - 32) as char else c
  }

  // ---------- str.strip, str.upper, str.replace(" ", "") ----------

  function TrimLeft(s: string): string {
    if s != "" && IsSpace(s[0]) then TrimLeft(s[1..]) else s
  }

  function TrimRight(s: string): string {
    if s != "" && IsSpace(s[|s| - 1]) then TrimRight(s[..|s| - 1]) else s
  }

  function Strip(s: string): string {
    TrimRight(TrimLeft(s))
  }

  function Upper(s: string): (r: string)
    ensures |r| == |s|
  {
    seq(|s|, i requires 0 <= i < |s| => UpperChar(s[i]))
  }

  lemma {:induction false} TrimLeftShape(s: string)
    ensures TrimLeft(s) != "" ==> !IsSpace(TrimLeft(s)[0])
  {
    if s != "" && IsSpace(s[0]) {
      TrimLeftShape(s[1..]);
    }
  }

  lemma {:induction false} TrimRightShape(s: string)
    ensures TrimRight(s) <= s
    ensures TrimRight(s) != "" ==> !IsSpace(TrimRight(s)[|TrimRight(s)| - 1])
  {
    if s != "" && IsSpace(s[|s| - 1]) {
      TrimRightShape(s[..|s| - 1]);
    }
  }

  /** A stripped text has nothing left to strip. */
  lemma StripStrip(s: string)
    ensures Strip(Strip(s)) == Strip(s)
  {
    TrimLeftShape(s);
    TrimRightShape(TrimLeft(s));
    var r := Strip(s);
    assert r != "" ==> r[0] == TrimLeft(s)[0];
  }

  /** White space of ASCII, the separators 28 to 31 included. */
  predicate WhiteChar(c: char) {
    c in {' ', '\t', '\n', '\U{0b}', '\U{0c}', '\r', '\U{1c}', '\U{1d}', '\U{1e}', '\U{1f}'}
  }

  lemma SpaceIsWhite(c: char)
    ensures IsSpace(c) <==> WhiteChar(c)
  {
  }

  predicate White(s: string) {
    forall i | 0 <= i < |s| :: WhiteChar(s[i])
  }

  lemma {:induction false} TrimmedLeft(s: string) returns (front: string)
    ensures White(front) && s == front + TrimLeft(s)
  {
    if s != "" && IsSpace(s[0]) {
      var more := TrimmedLeft(s[1..]);
      SpaceIsWhite(s[0]);
      front := [s[0]] + more;
      assert s == [s[0]] + s[1..];
    } else {
      front := "";
    }
  }

  lemma {:induction false} TrimmedRight(s: string) returns (back: string)
    ensures White(back) && s == TrimRight(s) + back
  {
    if s != "" && IsSpace(s[|s| - 1]) {
      var more := TrimmedRight(s[..|s| - 1]);
      SpaceIsWhite(s[|s| - 1]);
      back := more + [s[|s| - 1]];
      assert s == s[..|s| - 1] + [s[|s| - 1]];
    } else {
      back := "";
    }
  }

  /** Stripping takes the white space off both ends, all of it, and nothing else. */
  lemma StripExact(s: string) returns (front: string, back: string)
    ensures s == front + Strip(s) + back && White(front) && White(back)
    ensures Strip(s) != "" ==> !WhiteChar(Strip(s)[0]) && !WhiteChar(Strip(s)[|Strip(s)| - 1])
  {
    front := TrimmedLeft(s);
    back := TrimmedRight(TrimLeft(s));
    TrimLeftShape(s);
    TrimRightShape(TrimLeft(s));
    if Strip(s) != "" {
      assert Strip(s)[0] == TrimLeft(s)[0];
      SpaceIsWhite(Strip(s)[0]);
      SpaceIsWhite(Strip(s)[|Strip(s)| - 1]);
    }
  }

  function LowerChar(c: char): char {
    if 'A' <= c <= 'Z' then (c as nat + 32) as char else c
  }

  function Lower(s: string): string {
    seq(|s|, i requires 0 <= i < |s| => LowerChar(s[i]))
  }

  function WithoutBlanks(s: string): string {
    if s == "" then ""
    else (if s[0] == ' ' then "" else [s[0]]) + WithoutBlanks(s[1..])
  }

  /** What `str(value).strip().upper().replace(" ", "")` yields. */
  function Normalized(s: string): string {
    WithoutBlanks(Upper(Strip(s)))
  }

  /** A text with no white space and no lower-case letter is already in normal form. */
  ghost predicate Plain(s: string) {
    forall i | 0 <= i < |s| :: !IsSpace(s[i]) && UpperChar(s[i]) == s[i]
  }

  lemma {:induction false} WithoutBlanksPlain(s: string)
    requires forall i | 0 <= i < |s| :: s[i] != ' '
    ensures WithoutBlanks(s) == s
  {
    if s != "" {
      WithoutBlanksPlain(s[1..]);
      assert s == [s[0]] + s[1..];
    }
  }

  lemma NormalizedPlain(s: string)
    requires Plain(s)
    ensures Strip(s) == s && Upper(s) == s && Normalized(s) == s
  {
    assert Upper(s) == s;
    WithoutBlanksPlain(s);
  }

  // ---------- decimal numerals ----------

  predicate AllDigits(s: string) {
    forall i | 0 <= i < |s| :: IsDigit(s[i])
  }

  /** `int(s)` for a text of digits. */
  function Value(s: string): nat
    requires AllDigits(s)
  {
    if s == "" then 0 else 10 * Value(s[..|s| - 1]) + DigitValue(s[|s| - 1])
  }

  /** `str(n)` for a non-negative integer. */
  function Decimal(n: nat): (s: string)
    ensures s != "" && AllDigits(s)
  {
    if n < 10 then [DigitChar(n)] else Decimal(n / 10) + [DigitChar(n % 10)]
  }

  /** `str(n)` for any integer. */
  function IntText(n: int): (s: string)
    ensures s != ""
  {
    if n < 0 then "-" + Decimal(-n) else Decimal(n)
  }

  /** The format `f"{n:02d}"`: at least two characters, the sign included. */
  function Pad2(n: int): (s: string)
    ensures |s| >= 2
    ensures n >= 0 ==> AllDigits(s)
  {
    if 0 <= n < 10 then "0" + Decimal(n) else IntText(n)
  }

  lemma {:induction false} ValueOfDecimal(n: nat)
    ensures Value(Decimal(n)) == n
  {
    if n >= 10 {
      ValueOfDecimal(n / 10);
      assert Decimal(n)[..|Decimal(n)| - 1] == Decimal(n / 10);
    }
  }

  lemma ValueOfPad2(n: nat)
    ensures Value(Pad2(n)) == n
  {
    ValueOfDecimal(n);
    if n < 10 {
      assert Pad2(n)[..1] == "0";
      assert Value("0") == 0;
    }
  }

  function Pow10(k: nat): (p: nat)
    ensures p >= 1
  {
    if k == 0 then 1 else 10 * Pow10(k - 1)
  }

  /** A numeral of k digits is worth less than 10^k. */
  lemma {:induction false} ValueBelow(s: string)
    requires AllDigits(s)
    ensures Value(s) < Pow10(|s|)
  {
    if s != "" {
      ValueBelow(s[..|s| - 1]);
    }
  }

  /** `str` never writes more digits than needed. */
  lemma {:induction false} DecimalLength(n: nat, k: nat)
    requires k >= 1
    ensures |Decimal(n)| <= k <==> n < Pow10(k)
  {
    if k == 1 {
      assert Pow10(1) == 10;
    } else if n >= 10 {
      DecimalLength(n / 10, k - 1);
      assert Pow10(k) == 10 * Pow10(k - 1);
    } else {
      PowMonotone(1, k);
    }
  }

  lemma DecimalWidths(n: nat)
    ensures |Decimal(n)| <= 3 <==> n < 1000
    ensures |Decimal(n)| <= 4 <==> n < 10000
    ensures |Pad2(n)| <= 3 <==> n < 1000
    ensures |Pad2(n)| <= 4 <==> n < 10000
  {
    PowersOfTen();
    DecimalLength(n, 3);
    DecimalLength(n, 4);
    Pad2Length(n, 3);
    Pad2Length(n, 4);
  }

  lemma PowersOfTen()
    ensures Pow10(2) == 100 && Pow10(3) == 1000 && Pow10(4) == 10000
  {
    assert Pow10(2) == 10 * Pow10(1);
    assert Pow10(3) == 10 * Pow10(2);
    assert Pow10(4) == 10 * Pow10(3);
  }

  lemma {:induction false} PowMonotone(j: nat, k: nat)
    requires j <= k
    ensures Pow10(j) <= Pow10(k)
  {
    if j < k {
      PowMonotone(j, k - 1);
    }
  }

  lemma Pad2Length(n: nat, k: nat)
    requires k >= 2
    ensures |Pad2(n)| <= k <==> n < Pow10(k)
  {
    DecimalLength(n, k);
    if n < 10 {
      PowersOfTen();
      PowMonotone(2, k);
    }
  }

  /** The two leading decimal digits of a number, which is what a two-character slice reads. */
  function LeadingTwo(n: nat): nat {
    if n < 100 then n else LeadingTwo(n / 10)
  }

  lemma {:induction false} LeadingTwoOfPad2(n: nat)
    ensures AllDigits(Pad2(n)[..2]) && Value(Pad2(n)[..2]) == LeadingTwo(n)
    ensures n >= 100 ==> 10 <= LeadingTwo(n) < 100
  {
    if n < 10 {
      ValueOfPad2(n);
      assert Pad2(n)[..2] == Pad2(n);
    } else if n < 100 {
      Pad2Length(n, 2);
      PowersOfTen();
      ValueOfPad2(n);
      assert Pad2(n)[..2] == Pad2(n);
    } else {
      LeadingTwoOfPad2(n / 10);
      assert Pad2(n) == Pad2(n / 10) + [DigitChar(n % 10)];
      assert Pad2(n)[..2] == Pad2(n / 10)[..2];
    }
  }

  // ---------- the order Python uses on strings ----------

  /** `a < b` on strings: by code point, a proper prefix first. */
  predicate TextLess(a: string, b: string) {
    b != "" && (a == "" || a[0] < b[0] || (a[0] == b[0] && TextLess(a[1..], b[1..])))
  }

  /** The first place where they differ decides: a ends there, or has the smaller character. */
  lemma {:induction false} TextLessIff(a: string, b: string)
    ensures TextLess(a, b) <==> exists i: nat :: LessFrom(a, b, i)
  {
    forall i: nat | 0 < i && LessFrom(a, b, i)
      ensures a[0] == b[0]
    {
      assert a[..i][0] == b[..i][0];
    }
    if b != "" && a != "" && a[0] == b[0] {
      TextLessIff(a[1..], b[1..]);
      if i: nat :| LessFrom(a[1..], b[1..], i) {
        assert a[..i + 1] == [a[0]] + a[1..][..i] && b[..i + 1] == [b[0]] + b[1..][..i];
        assert LessFrom(a, b, i + 1);
      }
      if i: nat :| LessFrom(a, b, i) {
        assert i > 0 && a[..i][1..] == b[..i][1..];
        assert LessFrom(a[1..], b[1..], i - 1);
      }
    } else if TextLess(a, b) {
      assert LessFrom(a, b, 0);
    }
  }

  predicate LessFrom(a: string, b: string, i: nat) {
    i <= |a| && i < |b| && a[..i] == b[..i] && (i == |a| || a[i] < b[i])
  }

  lemma {:induction false} TextTotal(a: string, b: string)
    ensures a == b || TextLess(a, b) || TextLess(b, a)
    ensures !(TextLess(a, b) && TextLess(b, a))
    ensures !TextLess(a, a)
  {
    if a != "" {
      TextTotal(a[1..], a[1..]);
    }
    if a != "" && b != "" {
      TextTotal(a[1..], b[1..]);
      if a[0] == b[0] && a[1..] == b[1..] {
        assert a == [a[0]] + a[1..] && b == [b[0]] + b[1..];
      }
    }
  }

  lemma {:induction false} TextTransitive(a: string, b: string, c: string)
    requires TextLess(a, b) && TextLess(b, c)
    ensures TextLess(a, c)
  {
    if a != "" && a[0] == b[0] == c[0] {
      TextTransitive(a[1..], b[1..], c[1..]);
    }
  }
}

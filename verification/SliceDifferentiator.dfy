/** A slice differentiator as colon-separated hexadecimal octets, and back. */
module SliceDifferentiator {
  import opened Options

  const HEX := "0123456789abcdef"

  function Hex(n: nat): string {
    (if n < 16 then "" else Hex(n / 16)) + [HEX[n % 16]]
  }

  function Padded(s: string, width: nat): string
    decreases width - |s|
  {
    if |s| >= width then s else Padded("0" + s, width)
  }

  /** At least six characters, the sign included. */
  function SixDigits(sd: int): string {
    if sd < 0 then "-" + Padded(Hex(-sd), 5) else Padded(Hex(sd), 6)
  }

  /** Three pairs of characters; whatever follows them is lost. */
  function SdToHex(sd: int): string {
    var text := SixDigits(sd);
    SixDigitsFit(sd);
    text[..2] + ":" + text[2..4] + ":" + text[4..6]
  }

  function WithoutColons(s: string): string {
    if s == "" then "" else (if s[0] == ':' then "" else [s[0]]) + WithoutColons(s[1..])
  }

  function DigitOf(c: char): Option<nat> {
    if '0' <= c <= '9' then Some(c as int - '0' as int)
    else if 'a' <= c <= 'f' then Some(c as int - 'a' as int + 10)
    else if 'A' <= c <= 'F' then Some(c as int - 'A' as int + 10)
    else None
  }

  function Natural(s: string): Option<nat> {
    if s == "" then Some(0)
    else
      var init, last := Natural(s[..|s| - 1]), DigitOf(s[|s| - 1]);
      if init.Some? && last.Some? then Some(16 * init.value + last.value) else None
  }

  function Signed(negative: bool, n: nat): int {
    if negative then 0 - n else n
  }

  /** The number the octets spell; None where the source raises an error. */
  function ParseSd(sd: string): Option<int> {
    var text := WithoutColons(sd);
    var negative := text != "" && text[0] == '-';
    var digits := if text != "" && (text[0] == '-' || text[0] == '+') then text[1..] else text;
    var n := Natural(digits);
    if digits == "" || n.None? then None else Some(Signed(negative, n.value))
  }

  // ----- Hexadecimal digits -----

  lemma HexDigit(d: nat)
    requires d < 16
    ensures DigitOf(HEX[d]) == Some(d) && HEX[d] != ':' && HEX[d] != '-' && HEX[d] != '+'
  {
  }

  lemma OneMoreDigit(s: string, n: nat, d: nat)
    requires Natural(s) == Some(n) && d < 16
    requires ':' !in s && '-' !in s && '+' !in s
    ensures var t := s + [HEX[d]];
            Natural(t) == Some(16 * n + d) && ':' !in t && '-' !in t && '+' !in t
  {
    HexDigit(d);
    var t := s + [HEX[d]];
    assert t[..|t| - 1] == s && t[|t| - 1] == HEX[d];
  }

  lemma {:induction false} HexSpells(n: nat)
    ensures Natural(Hex(n)) == Some(n) && Hex(n) != ""
    ensures ':' !in Hex(n) && '-' !in Hex(n) && '+' !in Hex(n)
  {
    var q, d := n / 16, n % 16;
    var front := if n < 16 then "" else Hex(q);
    if n >= 16 {
      HexSpells(q);
    }
    assert Natural(front) == Some(q);
    OneMoreDigit(front, q, d);
    assert Hex(n) == front + [HEX[d]];
  }

  lemma {:induction false} ZerosInFront(s: string)
    ensures Natural("0" + s) == Natural(s)
  {
    if s == "" {
      assert ("0" + s)[..0] == "";
    } else {
      ZerosInFront(s[..|s| - 1]);
      assert ("0" + s)[..|s|] == "0" + s[..|s| - 1];
    }
  }

  lemma {:induction false} PaddingSpells(s: string, width: nat)
    requires ':' !in s && '-' !in s && '+' !in s
    ensures Natural(Padded(s, width)) == Natural(s)
    ensures |Padded(s, width)| == if |s| >= width then |s| else width
    ensures ':' !in Padded(s, width) && '-' !in Padded(s, width) && '+' !in Padded(s, width)
    decreases width - |s|
  {
    if |s| < width {
      ZerosInFront(s);
      PaddingSpells("0" + s, width);
    }
  }

  lemma SixDigitsFit(sd: int)
    ensures |SixDigits(sd)| >= 6 && ':' !in SixDigits(sd)
  {
    var n: nat := if sd < 0 then -sd else sd;
    HexSpells(n);
    PaddingSpells(Hex(n), if sd < 0 then 5 else 6);
  }

  /** Fewer hexadecimal digits than the limit exactly when the number is below the power. */
  lemma {:induction false} HexLength(n: nat, digits: nat, limit: nat)
    requires digits > 0 && limit == Power16(digits)
    ensures |Hex(n)| <= digits <==> n < limit
  {
    if digits > 1 && n >= 16 {
      HexLength(n / 16, digits - 1, Power16(digits - 1));
    } else if n >= 16 {
      assert Hex(n / 16) != "";
    }
  }

  function Power16(n: nat): (r: nat)
    ensures n > 0 ==> r >= 16
  {
    if n == 0 then 1 else 16 * Power16(n - 1)
  }

  /** Dropping digits at the end leaves a number at least sixteen times smaller. */
  lemma {:induction false} PrefixIsSmaller(s: string, k: nat)
    requires k < |s| && Natural(s).Some?
    ensures Natural(s[..k]).Some? && 16 * Natural(s[..k]).value <= Natural(s).value
  {
    var init := s[..|s| - 1];
    if k < |init| {
      PrefixIsSmaller(init, k);
      assert init[..k] == s[..k];
    } else {
      assert init == s[..k];
    }
  }

  // ----- Colons -----

  lemma {:induction false} NoColons(s: string)
    requires ':' !in s
    ensures WithoutColons(s) == s
  {
    if s != "" {
      NoColons(s[1..]);
      assert s == [s[0]] + s[1..];
    }
  }

  lemma {:induction false} ColonsBetween(a: string, b: string)
    ensures WithoutColons(a + b) == WithoutColons(a) + WithoutColons(b)
  {
    if a == "" {
      assert a + b == b;
    } else {
      var head := if a[0] == ':' then "" else [a[0]];
      var x, y := WithoutColons(a[1..]), WithoutColons(b);
      ColonsBetween(a[1..], b);
      assert (a + b)[1..] == a[1..] + b;
      assert head + (x + y) == (head + x) + y;
    }
  }

  lemma Separated(a: string, b: string)
    ensures WithoutColons(a + ":" + b) == WithoutColons(a) + WithoutColons(b)
  {
    ColonsBetween(a + ":", b);
    ColonsBetween(a, ":");
    assert ":"[1..] == "" && WithoutColons(":") == "";
  }

  lemma OctetsApart(a: string, b: string, c: string)
    requires ':' !in a && ':' !in b && ':' !in c
    ensures WithoutColons(a + ":" + b + ":" + c) == a + b + c
  {
    Separated(a + ":" + b, c);
    Separated(a, b);
    NoColons(a);
    NoColons(b);
    NoColons(c);
  }

  lemma OctetsJoin(sd: int)
    ensures |SixDigits(sd)| >= 6 && WithoutColons(SdToHex(sd)) == SixDigits(sd)[..6]
  {
    var text := SixDigits(sd);
    SixDigitsFit(sd);
    OctetsApart(text[..2], text[2..4], text[4..6]);
    assert text[..2] + text[2..4] + text[4..6] == text[..6];
  }

  // ----- The round trip -----

  /** Reading the first digits of a padded number gives it back exactly when it has no more. */
  lemma FirstDigits(n: nat, width: nat)
    requires width > 0
    ensures var digits := Padded(Hex(n), width);
            |digits| >= width && Natural(digits[..width]).Some? &&
            (Natural(digits[..width]).value == n <==> n < Power16(width))
    ensures var kept := Padded(Hex(n), width)[..width]; '-' !in kept && '+' !in kept
  {
    HexSpells(n);
    PaddingSpells(Hex(n), width);
    HexLength(n, width, Power16(width));
    var digits := Padded(Hex(n), width);
    if n < Power16(width) {
      assert digits[..width] == digits;
    } else {
      PrefixIsSmaller(digits, width);
    }
  }

  /** A differentiator comes back exactly when its digits and sign fit the three octets. */
  lemma SdComesBackIff(sd: int)
    ensures ParseSd(SdToHex(sd)) == Some(sd) <==> -0x10_0000 < sd < 0x100_0000
  {
    OctetsJoin(sd);
    assert Power16(5) == 0x10_0000 && Power16(6) == 0x100_0000;
    if sd < 0 {
      FirstDigits(-sd, 5);
      var digits := Padded(Hex(-sd), 5)[..5];
      assert SixDigits(sd)[..6] == "-" + digits;
      assert ("-" + digits)[1..] == digits;
    } else {
      FirstDigits(sd, 6);
      assert Padded(Hex(sd), 6)[..6][0] !in "+-";
    }
  }

  // ----- The octets -----

  const UPPER := "0123456789ABCDEF"

  lemma HexCharacters(d: nat)
    requires d < 16
    ensures HEX[d] as int == if d < 10 then '0' as int + d else 'a' as int + d - 10
    ensures UPPER[d] as int == if d < 10 then '0' as int + d else 'A' as int + d - 10
  {
    assert HEX == "0123456789abcdef" && UPPER == "0123456789ABCDEF";
  }

  /** Sixteen characters are digits, the letters among them in either case, and no other. */
  lemma DigitsAre(c: char, d: nat)
    requires d < 16
    ensures DigitOf(c) == Some(d) <==> c == HEX[d] || c == UPPER[d]
    ensures DigitOf(c).Some? ==> DigitOf(c).value < 16
  {
    HexCharacters(d);
  }

  lemma ShiftInParts(x: nat, p: nat, y: nat, d: nat)
    ensures 16 * (x * p + y) + d == x * (16 * p) + (16 * y + d)
  {
    assert x * (16 * p) == 16 * (x * p);
  }

  lemma DigitFits(c: char)
    ensures DigitOf(c).Some? ==> DigitOf(c).value < 16
  {
  }

  /** A number spelled in two parts. */
  lemma {:induction false} NaturalInParts(a: string, b: string)
    requires Natural(a).Some? && Natural(b).Some?
    ensures Natural(a + b) == Some(Natural(a).value * Power16(|b|) + Natural(b).value)
    ensures Natural(b).value < Power16(|b|)
  {
    if b == "" {
      assert a + b == a;
    } else {
      var init, last := b[..|b| - 1], b[|b| - 1];
      NaturalInParts(a, init);
      DigitFits(last);
      assert (a + b)[..|a + b| - 1] == a + init && (a + b)[|a + b| - 1] == last;
      ShiftInParts(Natural(a).value, Power16(|init|), Natural(init).value, DigitOf(last).value);
    }
  }

  lemma {:induction false} PartsAreNatural(s: string, k: nat)
    requires Natural(s).Some? && k <= |s|
    ensures Natural(s[..k]).Some? && Natural(s[k..]).Some?
  {
    if k < |s| {
      var init := s[..|s| - 1];
      PartsAreNatural(init, k);
      assert init[..k] == s[..k] && s[k..][..|s| - k - 1] == init[k..] && s[k..][|s| - k - 1] == s[|s| - 1];
    } else {
      assert s[..k] == s && s[k..] == "";
    }
  }

  lemma OctetsOf(n: nat, x: nat, y: nat, z: nat)
    requires x < 0x100 && y < 0x100 && z < 0x100 && n == (x * 0x100 + y) * 0x100 + z
    ensures n / 0x1_0000 == x && n / 0x100 % 0x100 == y && n % 0x100 == z
  {
  }

  lemma TwoMore(s: string, n: nat, rest: string)
    requires Natural(s) == Some(n) && |rest| == 2 && Natural(rest).Some?
    ensures Natural(s + rest) == Some(n * 0x100 + Natural(rest).value)
    ensures Natural(rest).value < 0x100
  {
    NaturalInParts(s, rest);
    assert Power16(2) == 0x100;
  }

  /** Two digits at a time. */
  lemma SixDigitsInPairs(a: string, b: string, c: string, n: nat)
    requires |a| == 2 && |b| == 2 && |c| == 2 && Natural(a + b + c) == Some(n)
    ensures Natural(a) == Some(n / 0x1_0000)
    ensures Natural(b) == Some(n / 0x100 % 0x100)
    ensures Natural(c) == Some(n % 0x100)
  {
    PartsAreNatural(a + b + c, 4);
    assert (a + b + c)[..4] == a + b && (a + b + c)[4..] == c;
    PartsAreNatural(a + b, 2);
    assert (a + b)[..2] == a && (a + b)[2..] == b;
    TwoMore("", 0, a);
    assert "" + a == a;
    TwoMore(a, Natural(a).value, b);
    TwoMore(a + b, Natural(a + b).value, c);
    OctetsOf(n, Natural(a).value, Natural(b).value, Natural(c).value);
  }

  lemma ExactlySixDigits(sd: int)
    requires 0 <= sd < 0x100_0000
    ensures |SixDigits(sd)| == 6 && Natural(SixDigits(sd)) == Some(sd)
  {
    HexSpells(sd);
    PaddingSpells(Hex(sd), 6);
    assert Power16(6) == 0x100_0000;
    HexLength(sd, 6, Power16(6));
  }

  /** A differentiator of three octets is written as those: each in two hexadecimal digits, the highest first, with a colon
      between. */
  lemma OctetsAre(sd: int)
    requires 0 <= sd < 0x100_0000
    ensures var text := SdToHex(sd);
            && |text| == 8 && text[2] == ':' && text[5] == ':'
            && Natural(text[..2]) == Some(sd / 0x1_0000)
            && Natural(text[3..5]) == Some(sd / 0x100 % 0x100)
            && Natural(text[6..8]) == Some(sd % 0x100)
  {
    ExactlySixDigits(sd);
    PairsRead(SixDigits(sd), sd, SdToHex(sd));
  }

  lemma PairsRead(digits: string, n: nat, text: string)
    requires |digits| == 6 && Natural(digits) == Some(n)
    requires text == digits[..2] + ":" + digits[2..4] + ":" + digits[4..6]
    ensures |text| == 8 && text[2] == ':' && text[5] == ':'
    ensures Natural(text[..2]) == Some(n / 0x1_0000)
    ensures Natural(text[3..5]) == Some(n / 0x100 % 0x100)
    ensures Natural(text[6..8]) == Some(n % 0x100)
  {
    assert digits == digits[..2] + digits[2..4] + digits[4..6];
    SixDigitsInPairs(digits[..2], digits[2..4], digits[4..6], n);
    assert text[..2] == digits[..2] && text[3..5] == digits[2..4] && text[6..8] == digits[4..6];
  }
}

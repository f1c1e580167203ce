/** Letter case, address syntax and decimal notation. */
module Text {

  function LowerChar(c: char): char {
    if 'A' <= c <= 'Z' then c - 'A' + 'a' else c
  }

  function Lower(s: string): (r: string)
    ensures |r| == |s| && forall i :: 0 <= i < |s| ==> r[i] == LowerChar(s[i])
  {
    seq(|s|, i requires 0 <= i < |s| => LowerChar(s[i]))
  }

  predicate HexDigit(c: char) {
    '0' <= c <= '9' || 'a' <= c <= 'f' || 'A' <= c <= 'F'
  }

  /** 0x and exactly the given number of hex digits. */
  predicate Hex(s: string, digits: nat) {
    |s| == digits + 2 && s[0] == '0' && s[1] == 'x' && forall i :: 2 <= i < |s| ==> HexDigit(s[i])
  }

  predicate IsAddress(s: string) { Hex(s, 40) }

  predicate IsSelector(s: string) { Hex(s, 8) }

  predicate IsHash32(s: string) { Hex(s, 64) }

  /** Lower-casing identifies a letter with its capital and nothing else, and leaves no capital. */
  lemma SameLetter(c: char, d: char)
    ensures LowerChar(c) == LowerChar(d) <==>
            || c == d
            || ('A' <= c <= 'Z' && d as int == c as int + 32)
            || ('A' <= d <= 'Z' && c as int == d as int + 32)
    ensures !('A' <= LowerChar(c) <= 'Z')
  {
  }

  const HEX_DIGITS := "0123456789abcdefABCDEF"

  /** The syntax of addresses, selectors and hashes. */
  lemma HexSyntax(s: string)
    ensures IsAddress(s) <==> |s| == 42 && s[..2] == "0x" && forall c :: c in s[2..] ==> c in HEX_DIGITS
    ensures IsSelector(s) <==> |s| == 10 && s[..2] == "0x" && forall c :: c in s[2..] ==> c in HEX_DIGITS
    ensures IsHash32(s) <==> |s| == 66 && s[..2] == "0x" && forall c :: c in s[2..] ==> c in HEX_DIGITS
  {
    if |s| >= 2 {
      HexTail(s[2..]);
      assert s[..2] == "0x" <==> s[0] == '0' && s[1] == 'x';
      var tail := s[2..];
      assert forall i :: 2 <= i < |s| ==> s[i] == tail[i - 2];
      assert forall i :: 0 <= i < |tail| ==> tail[i] == s[i + 2];
    }
  }

  lemma HexTail(s: string)
    ensures (forall i :: 0 <= i < |s| ==> HexDigit(s[i])) <==> forall c :: c in s ==> c in HEX_DIGITS
  {
    forall c: char
      ensures HexDigit(c) <==> c in HEX_DIGITS
    {
      ListedDigit(c);
    }
  }

  lemma ListedDigit(c: char)
    ensures HexDigit(c) <==> c in HEX_DIGITS
  {
    if '0' <= c <= '9' { assert HEX_DIGITS[c as int - '0' as int] == c; }
    if 'a' <= c <= 'f' { assert HEX_DIGITS[c as int - 'a' as int + 10] == c; }
    if 'A' <= c <= 'F' { assert HEX_DIGITS[c as int - 'A' as int + 16] == c; }
  }

  function Digit(d: nat): char
    requires d < 10
  {
    '0' + d as char
  }

  /** Base-10 notation. */
  function Decimal(n: nat): string {
    if n < 10 then [Digit(n)] else Decimal(n / 10) + [Digit(n % 10)]
  }

  function Value(s: string): int {
    if s == "" then 0 else Value(s[..|s| - 1]) * 10 + (s[|s| - 1] as int - '0' as int)
  }

  lemma {:induction false} DecimalRoundTrip(n: nat)
    ensures Value(Decimal(n)) == n && Decimal(n) != ""
  {
    if n >= 10 {
      DecimalRoundTrip(n / 10);
      assert Decimal(n)[..|Decimal(n)| - 1] == Decimal(n / 10);
    } else {
      assert Decimal(n)[..0] == "";
    }
  }

  lemma DecimalInjective(m: nat, n: nat)
    requires Decimal(m) == Decimal(n)
    ensures m == n
  {
    DecimalRoundTrip(m);
    DecimalRoundTrip(n);
  }

  /** Base-10 notation with a sign. */
  function Notation(n: int): string {
    if n < 0 then "-" + Decimal(-n) else Decimal(n)
  }

  lemma NotationInjective(m: int, n: int)
    requires Notation(m) == Notation(n)
    ensures m == n
  {
    DecimalHasNoSign(if m < 0 then -m else m);
    DecimalHasNoSign(if n < 0 then -n else n);
    if m < 0 {
      assert Notation(m)[1..] == Decimal(-m) && Notation(n)[1..] == Decimal(-n);
      DecimalInjective(-m, -n);
    } else {
      DecimalInjective(m, n);
    }
  }

  lemma {:induction false} DecimalHasNoSign(n: nat)
    ensures Decimal(n) != "" && Decimal(n)[0] != '-'
  {
    if n >= 10 { DecimalHasNoSign(n / 10); }
  }
}

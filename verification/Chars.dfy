/** The C library's view of characters, and its decimal conversions. */
module Chars {

  /** isprint in the C locale; bytes from 0x80 up are not printable. */
  predicate IsPrint(c: char) {
    ' ' <= c <= '~'
  }

  /** isspace in the C locale. */
  predicate IsSpace(c: char) {
    c == ' ' || '\t' <= c <= '\r'
  }

  /** isgraph in the C locale. */
  predicate IsGraph(c: char) {
    '!' <= c <= '~'
  }

  predicate IsDigit(c: char) {
    '0' <= c <= '9'
  }

  predicate AllPrint(s: string) {
    forall i :: 0 <= i < |s| ==> IsPrint(s[i])
  }

  /** What a char pointer reads: the string's first character, or the NUL kept behind its last one. */
  function Head(s: string): char {
    if s == "" then '\0' else s[0]
  }

  function WithoutSpaces(s: string): string {
    if s == "" then "" else (if s[0] == ' ' then "" else [s[0]]) + WithoutSpaces(s[1..])
  }

  /** Advancing a pointer by one character. */
  lemma Advance(s: string, c: nat)
    requires c < |s|
    ensures Head(s[c..]) == s[c] && s[c..][1..] == s[c+1..]
  {
  }

  /** %u of printf. */
  function Decimal(n: nat): string {
    if n < 10 then [('0' as int + n) as char] else Decimal(n / 10) + [('0' as int + n % 10) as char]
  }

  /** atoi: white space, an optional sign, then digits up to the first other character. */
  function Atoi(s: string): int
    decreases |s|
  {
    if s != "" && IsSpace(s[0]) then Atoi(s[1..])
    else if s != "" && s[0] == '-' then 0 - AtoiDigits(s[1..], 0)
    else if s != "" && s[0] == '+' then AtoiDigits(s[1..], 0)
    else AtoiDigits(s, 0)
  }

  function AtoiDigits(s: string, acc: nat): nat {
    if s != "" && IsDigit(s[0]) then AtoiDigits(s[1..], 10 * acc + (s[0] as int - '0' as int)) else acc
  }

  lemma {:induction false} DecimalDigits(n: nat)
    ensures Decimal(n) != ""
    ensures forall i :: 0 <= i < |Decimal(n)| ==> IsDigit(Decimal(n)[i])
  {
    if n >= 10 {
      DecimalDigits(n / 10);
    }
  }

  lemma {:induction false} AtoiDigitsAppend(a: string, d: char, acc: nat)
    requires forall i :: 0 <= i < |a| ==> IsDigit(a[i])
    requires IsDigit(d)
    ensures AtoiDigits(a + [d], acc) == 10 * AtoiDigits(a, acc) + (d as int - '0' as int)
  {
    if a == "" {
      assert (a + [d])[1..] == "";
    } else {
      assert (a + [d])[1..] == a[1..] + [d];
      AtoiDigitsAppend(a[1..], d, 10 * acc + (a[0] as int - '0' as int));
    }
  }

  lemma {:induction false} AtoiDigitsDecimal(n: nat)
    ensures AtoiDigits(Decimal(n), 0) == n
  {
    DecimalDigits(n);
    if n < 10 {
      assert Decimal(n)[1..] == "";
    } else {
      AtoiDigitsDecimal(n / 10);
      DecimalDigits(n / 10);
      AtoiDigitsAppend(Decimal(n / 10), ('0' as int + n % 10) as char, 0);
    }
  }

  /** atoi reads back what printf wrote. */
  lemma AtoiDecimal(n: nat)
    ensures Atoi(Decimal(n)) == n
  {
    DecimalDigits(n);
    AtoiDigitsDecimal(n);
    assert IsDigit(Decimal(n)[0]);
  }

  /** Two ways to split the same text: the shorter first part is where it should be in the longer one. */
  lemma TakePrefix(buffer: string, future: string, head: string, tail: string)
    requires buffer + future == head + tail && |head| <= |buffer|
    ensures buffer[..|head|] == head
    ensures buffer[|head|..] + future == tail
    ensures buffer == head + buffer[|head|..]
  {
    assert (buffer + future)[..|head|] == buffer[..|head|];
    assert (buffer + future)[|head|..] == buffer[|head|..] + future;
    assert (head + tail)[..|head|] == head && (head + tail)[|head|..] == tail;
  }
}

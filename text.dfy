/**
 * String helpers: decimal digits, `padStart`, the `LOAN-nnnnn` id template
 * shared by the CSV loader and the mock generator, and ASCII case mapping
 * for `toLowerCase`, `toUpperCase` and the capitalised attribute names.
 */
module Text {

  function DigitChar(d: nat): (c: char)
    requires d < 10
    ensures '0' <= c <= '9'
  {
    ('0' as int + d) as char
  }

  function DigitValue(c: char): nat
  {
    if '0' <= c <= '9' then (c as int - '0' as int) as nat else 0
  }

  predicate AllDigits(s: string)
  {
    forall i :: 0 <= i < |s| ==> '0' <= s[i] <= '9'
  }

  /** `n.toString()` for a non-negative integer: no leading zeros. */
  function Digits(n: nat): (s: string)
    ensures 1 <= |s| && AllDigits(s)
    decreases n
  {
    if n < 10 then [DigitChar(n)] else Digits(n / 10) + [DigitChar(n % 10)]
  }

  /** `String(i)` for any integer. */
  function IntToString(i: int): string
  {
    if i < 0 then "-" + Digits(-i) else Digits(i)
  }

  lemma DigitsInjective(m: nat, n: nat)
    requires m != n
    ensures Digits(m) != Digits(n)
  {
    DecimalValueOfDigits(m);
    DecimalValueOfDigits(n);
  }

  /** Distinct integers print differently. */
  lemma IntToStringInjective(i: int, j: int)
    requires i != j
    ensures IntToString(i) != IntToString(j)
  {
    if i < 0 && j < 0 {
      DigitsInjective(-i, -j);
      var s, t := IntToString(i), IntToString(j);
      assert s[1..] == Digits(-i) && t[1..] == Digits(-j);
    } else if i >= 0 && j >= 0 {
      DigitsInjective(i, j);
    } else {
      var neg, pos := if i < 0 then i else j, if i < 0 then j else i;
      assert IntToString(neg)[0] == '-';
      assert '0' <= Digits(pos)[0] <= '9';
    }
  }

  /** The number a string of decimal digits denotes (the inverse of Digits). */
  function DecimalValue(s: string): nat
  {
    if s == [] then 0 else DecimalValue(s[..|s| - 1]) * 10 + DigitValue(s[|s| - 1])
  }

  lemma {:induction false} DecimalValueOfDigits(n: nat)
    ensures DecimalValue(Digits(n)) == n
    decreases n
  {
    var s := Digits(n);
    if n >= 10 {
      assert s[..|s| - 1] == Digits(n / 10);
      DecimalValueOfDigits(n / 10);
    }
  }

  function Repeat(c: char, k: nat): (s: string)
    ensures |s| == k && forall i :: 0 <= i < k ==> s[i] == c
  {
    if k == 0 then [] else Repeat(c, k - 1) + [c]
  }

  /** Leading zeros do not change the value of a digit string. */
  lemma {:induction false} DecimalValueLeadingZeros(k: nat, s: string)
    ensures DecimalValue(Repeat('0', k) + s) == DecimalValue(s)
    decreases |s|, k
  {
    if s == [] {
      assert Repeat('0', k) + s == Repeat('0', k);
      if k > 0 {
        assert Repeat('0', k)[..k - 1] == Repeat('0', k - 1);
        DecimalValueLeadingZeros(k - 1, s);
        assert Repeat('0', k - 1) + s == Repeat('0', k - 1);
      }
    } else {
      var z := Repeat('0', k);
      assert (z + s)[..|z + s| - 1] == z + s[..|s| - 1];
      DecimalValueLeadingZeros(k, s[..|s| - 1]);
    }
  }

  /** `s.padStart(width, fill)`. */
  function PadStart(s: string, width: nat, fill: char): (r: string)
    ensures |r| == if |s| >= width then |s| else width
    ensures r[|r| - |s|..] == s
    ensures forall i :: 0 <= i < |r| - |s| ==> r[i] == fill
  {
    if |s| >= width then s else Repeat(fill, width - |s|) + s
  }

  const LoanPrefix: string := "LOAN-"

  /** `LOAN-${index.toString().padStart(5, '0')}`. */
  function LoanId(index: nat): (id: string)
    ensures |id| >= 10 && id[..|LoanPrefix|] == LoanPrefix
    ensures AllDigits(id[|LoanPrefix|..])
  {
    var p := PadStart(Digits(index), 5, '0');
    assert (LoanPrefix + p)[|LoanPrefix|..] == p;
    LoanPrefix + p
  }

  /** Reads the index back out of a loan id. */
  function ParseLoanId(id: string): nat
  {
    if |id| < |LoanPrefix| then 0 else DecimalValue(id[|LoanPrefix|..])
  }

  lemma LoanIdRoundTrip(index: nat)
    ensures ParseLoanId(LoanId(index)) == index
  {
    var d := Digits(index);
    var p := PadStart(d, 5, '0');
    assert LoanId(index)[|LoanPrefix|..] == p;
    DecimalValueOfDigits(index);
    if |d| < 5 {
      assert p == Repeat('0', 5 - |d|) + d;
      DecimalValueLeadingZeros(5 - |d|, d);
    }
  }

  /** Distinct indexes give distinct ids. */
  lemma LoanIdInjective(i: nat, j: nat)
    requires i != j
    ensures LoanId(i) != LoanId(j)
  {
    LoanIdRoundTrip(i);
    LoanIdRoundTrip(j);
  }

  lemma {:induction false} DigitsLength(n: nat, k: nat)
    requires n < Pow10(k)
    ensures |Digits(n)| <= if k == 0 then 1 else k
    decreases n
  {
    if n >= 10 {
      assert Pow10(0) == 1 && Pow10(1) == 10;
      DigitsLength(n / 10, k - 1);
    }
  }

  function Pow10(k: nat): (p: nat)
    ensures p >= 1
  {
    if k == 0 then 1 else 10 * Pow10(k - 1)
  }

  /** Below 100000 every id is exactly 10 characters, `LOAN-` and five digits. */
  lemma LoanIdLength(index: nat)
    requires index < 100000
    ensures |LoanId(index)| == 10
    ensures AllDigits(LoanId(index)[5..])
  {
    assert Pow10(5) == 100000;
    DigitsLength(index, 5);
  }

  function LowerChar(c: char): char
  {
    if 'A' <= c <= 'Z' then (c as int + 32) as char else c
  }

  function UpperChar(c: char): char
  {
    if 'a' <= c <= 'z' then (c as int - 32) as char else c
  }

  predicate HasNoUpper(s: string)
  {
    forall i :: 0 <= i < |s| ==> !('A' <= s[i] <= 'Z')
  }

  /** `s.toLowerCase()` over ASCII letters. */
  function ToLower(s: string): (r: string)
    ensures |r| == |s| && HasNoUpper(r)
    ensures forall i :: 0 <= i < |s| && !('A' <= s[i] <= 'Z') ==> r[i] == s[i]
    ensures forall i :: 0 <= i < |s| && 'A' <= s[i] <= 'Z' ==> r[i] != s[i] && UpperChar(r[i]) == s[i]
  {
    if s == [] then [] else ToLower(s[..|s| - 1]) + [LowerChar(s[|s| - 1])]
  }

  /** A string without upper-case letters is its own lower case. */
  lemma LowerIsFixed(s: string)
    requires HasNoUpper(s)
    ensures ToLower(s) == s
  {
    assert forall i :: 0 <= i < |s| ==> ToLower(s)[i] == s[i];
  }

  lemma ToLowerIdempotent(s: string)
    ensures ToLower(ToLower(s)) == ToLower(s)
  {
  }

  /** `s.charAt(0).toUpperCase() + s.slice(1)`. */
  function Capitalize(s: string): (r: string)
    ensures |r| == |s|
    ensures |s| > 0 ==> r[1..] == s[1..] && r[0] == UpperChar(s[0])
    ensures |s| > 0 && 'a' <= s[0] <= 'z' ==> 'A' <= r[0] <= 'Z' && r != s
    ensures |s| > 0 && !('a' <= s[0] <= 'z') ==> r == s
  {
    if s == [] then [] else [UpperChar(s[0])] + s[1..]
  }

  /** Capitalising only touches the first letter: lower-casing undoes it. */
  lemma CapitalizeThenLower(s: string)
    ensures ToLower(Capitalize(s)) == ToLower(s)
  {
    var r := Capitalize(s);
    assert forall i :: 0 <= i < |s| ==> LowerChar(r[i]) == LowerChar(s[i]);
    assert forall i :: 0 <= i < |s| ==> ToLower(r)[i] == ToLower(s)[i];
  }
}

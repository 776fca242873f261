/** Decimal digit strings: the quantity filter `/^\d*$/` and `parseInt` as it
    behaves on the strings that filter lets through. */
module Digits {

  import opened Optional

  /** `\d` in a JavaScript regular expression: the ASCII digits only. */
  predicate IsDigit(c: char)
  {
    '0' <= c <= '9'
  }

  /** The regular expression `/^\d*$/`: every character is a digit; the empty
      string matches too. */
  predicate IsDigitString(s: string)
  {
    forall i :: 0 <= i < |s| ==> IsDigit(s[i])
  }

  /** Every character is '0' (vacuously true of the empty string). */
  predicate AllZeros(s: string)
  {
    forall i :: 0 <= i < |s| ==> s[i] == '0'
  }

  function DigitValue(c: char): (d: nat)
    requires IsDigit(c)
    ensures d <= 9
    ensures d == 0 <==> c == '0'
  {
    c as int - '0' as int
  }

  function DigitChar(d: nat): (c: char)
    requires d <= 9
    ensures IsDigit(c) && DigitValue(c) == d
  {
    ('0' as int + d) as char
  }

  /** The number a digit string denotes, read most significant digit first;
      it is zero exactly when every digit is '0'. */
  function Value(s: string): (n: nat)
    requires IsDigitString(s)
    ensures n == 0 <==> AllZeros(s)
  {
    if s == [] then 0
    else
      var init := s[..|s| - 1];
      assert forall i :: 0 <= i < |init| ==> init[i] == s[i];
      Value(init) * 10 + DigitValue(s[|s| - 1])
  }

  /** `parseInt(s)` on a digit string: NaN (here None) for the empty string,
      otherwise the decimal value, leading zeros included. */
  function ParseInt(s: string): (r: Option<nat>)
    requires IsDigitString(s)
    ensures r.None? <==> s == []
    ensures r.Some? ==> (r.value == 0 <==> AllZeros(s))
  {
    if s == [] then None else Some(Value(s))
  }

  function Zeros(k: nat): (z: string)
    ensures |z| == k && AllZeros(z) && IsDigitString(z)
  {
    if k == 0 then [] else Zeros(k - 1) + ['0']
  }

  /** Leading zeros do not change the value: "007" parses as 7. */
  lemma {:induction false} LeadingZerosIgnored(k: nat, s: string)
    requires IsDigitString(s)
    ensures IsDigitString(Zeros(k) + s)
    ensures Value(Zeros(k) + s) == Value(s)
  {
    var t := Zeros(k) + s;
    assert forall i :: 0 <= i < |t| ==> IsDigit(t[i]) by {
      forall i | 0 <= i < |t| ensures IsDigit(t[i]) {
        if i < k { assert t[i] == Zeros(k)[i]; } else { assert t[i] == s[i - k]; }
      }
    }
    if s == [] {
      assert t == Zeros(k);
    } else {
      var init := s[..|s| - 1];
      assert IsDigitString(init) by {
        forall i | 0 <= i < |init| ensures IsDigit(init[i]) { assert init[i] == s[i]; }
      }
      LeadingZerosIgnored(k, init);
      assert t[..|t| - 1] == Zeros(k) + init;
      assert t[|t| - 1] == s[|s| - 1];
    }
  }

  /** The canonical decimal spelling of a natural number, as a user types it. */
  function Decimal(n: nat): (s: string)
    ensures IsDigitString(s) && |s| > 0
    decreases n
  {
    if n < 10 then [DigitChar(n)]
    else
      var s := Decimal(n / 10) + [DigitChar(n % 10)];
      assert forall i :: 0 <= i < |s| - 1 ==> s[i] == Decimal(n / 10)[i];
      s
  }

  /** Parsing what was spelled gives back the number. */
  lemma {:induction false} ValueOfDecimal(n: nat)
    ensures Value(Decimal(n)) == n
    decreases n
  {
    var s := Decimal(n);
    if n < 10 {
      assert s[..0] == [];
    } else {
      ValueOfDecimal(n / 10);
      assert s[..|s| - 1] == Decimal(n / 10);
      assert s[|s| - 1] == DigitChar(n % 10);
    }
  }

}

/** `src/helpers/string.ts`: case-insensitive address comparison and the input
  * sanitiser of the amount fields; plus the decimal rendering of a whole number
  * that template strings such as `${chainId}` perform. */
module StringHelpers {
  import opened Wrappers

  /** `String.prototype.toLowerCase` on one character, restricted to ASCII. */
  function LowerChar(c: char): char
  {
    if 'A' <= c <= 'Z' then (c as int + 32) as char else c
  }

  function ToLower(s: string): (r: string)
    ensures |r| == |s|
  {
    seq(|s|, i requires 0 <= i < |s| => LowerChar(s[i]))
  }

  /** Lower-casing a lower-cased string changes nothing. */
  lemma ToLowerIdempotent(s: string)
    ensures ToLower(ToLower(s)) == ToLower(s)
  {
    var t := ToLower(s);
    assert forall i :: 0 <= i < |t| ==> LowerChar(t[i]) == t[i];
  }

  /** Lower-casing leaves no upper-case ASCII letter behind. */
  lemma ToLowerHasNoUpperCase(s: string)
    ensures forall i :: 0 <= i < |ToLower(s)| ==> !('A' <= ToLower(s)[i] <= 'Z')
  {
  }

  /** `compareAddresses` (string.ts:1-6): equal after lower-casing both sides. */
  predicate CompareAddresses(a: string, b: string)
  {
    ToLower(a) == ToLower(b)
  }

  /** Case-insensitive comparison is an equivalence, and a string matches its own
    * lower-cased copy. */
  lemma CompareAddressesIsEquivalence(a: string, b: string, c: string)
    ensures CompareAddresses(a, a)
    ensures CompareAddresses(a, b) == CompareAddresses(b, a)
    ensures CompareAddresses(a, b) && CompareAddresses(b, c) ==> CompareAddresses(a, c)
    ensures CompareAddresses(a, ToLower(a))
  {
    ToLowerIdempotent(a);
  }

  /** Two addresses compare equal exactly when they agree character by character
    * up to ASCII case. */
  lemma CompareAddressesCharwise(a: string, b: string)
    ensures CompareAddresses(a, b) <==>
      |a| == |b| && forall i :: 0 <= i < |a| ==> LowerChar(a[i]) == LowerChar(b[i])
  {
    if |a| == |b| && forall i :: 0 <= i < |a| ==> LowerChar(a[i]) == LowerChar(b[i]) {
      assert forall i :: 0 <= i < |a| ==> ToLower(a)[i] == ToLower(b)[i];
    }
    if CompareAddresses(a, b) {
      assert forall i :: 0 <= i < |a| ==> ToLower(a)[i] == LowerChar(a[i]);
    }
  }

  predicate IsDigit(c: char)
  {
    '0' <= c <= '9'
  }

  predicate AllDigits(s: string)
  {
    forall i :: 0 <= i < |s| ==> IsDigit(s[i])
  }

  /** The regular expression `^([0-9])*[.,]?([0-9])*$` (string.ts:8): digits, at
    * most one `.` or `,`, digits. */
  predicate MatchesFloat(s: string)
  {
    if s == [] then true
    else if IsDigit(s[0]) then MatchesFloat(s[1..])
    else (s[0] == '.' || s[0] == ',') && AllDigits(s[1..])
  }

  /** The string without its run of leading zeros. */
  function DropLeadingZeros(s: string): (r: string)
    ensures |r| <= |s|
    ensures r == [] || r[0] != '0'
  {
    if |s| > 0 && s[0] == '0' then DropLeadingZeros(s[1..]) else s
  }

  /** `value.replace(/^0+/, "0")`. */
  function CollapseLeadingZeros(s: string): string
  {
    if |s| > 0 && s[0] == '0' then "0" + DropLeadingZeros(s) else s
  }

  /** The value with a trailing `,` replaced by `.` (string.ts:12-13). */
  function CommaFixed(value: string): (r: string)
    ensures |r| == |value|
  {
    if |value| > 0 && value[|value| - 1] == ',' then value[..|value| - 1] + "." else value
  }

  /** `sanitizeInput` (string.ts:10-19): `None` stands for `undefined`. */
  function SanitizeInput(value: string): Option<string>
  {
    if value == "" || MatchesFloat(value) then Some(CollapseLeadingZeros(CommaFixed(value)))
    else None
  }

  lemma {:induction false} DropLeadingZerosMatches(s: string)
    requires MatchesFloat(s)
    ensures MatchesFloat(DropLeadingZeros(s))
  {
    if |s| > 0 && s[0] == '0' {
      DropLeadingZerosMatches(s[1..]);
    }
  }

  lemma {:induction false} DropLeadingZerosSuffix(s: string)
    ensures exists m :: 0 <= m <= |s| && DropLeadingZeros(s) == s[m..]
  {
    if |s| > 0 && s[0] == '0' {
      DropLeadingZerosSuffix(s[1..]);
      var m :| 0 <= m <= |s[1..]| && DropLeadingZeros(s[1..]) == s[1..][m..];
      assert s[1..][m..] == s[m + 1..];
    } else {
      assert s == s[0..];
    }
  }

  lemma {:induction false} DropLeadingZerosTwice(s: string)
    ensures DropLeadingZeros(DropLeadingZeros(s)) == DropLeadingZeros(s)
  {
    if |s| > 0 && s[0] == '0' {
      DropLeadingZerosTwice(s[1..]);
    }
  }

  lemma {:induction false} TrailingCommaToDot(s: string)
    requires MatchesFloat(s) && |s| > 0 && s[|s| - 1] == ','
    ensures MatchesFloat(s[..|s| - 1] + ".")
  {
    var t := s[..|s| - 1] + ".";
    if |s| == 1 {
      assert t == ".";
    } else {
      assert s[1..][|s| - 2] == ',';
      if IsDigit(s[0]) {
        TrailingCommaToDot(s[1..]);
        assert t[1..] == s[1..][..|s[1..]| - 1] + ".";
      }
    }
  }

  lemma CollapseLeadingZerosMatches(s: string)
    requires MatchesFloat(s)
    ensures MatchesFloat(CollapseLeadingZeros(s))
  {
    if |s| > 0 && s[0] == '0' {
      DropLeadingZerosMatches(s);
      assert ("0" + DropLeadingZeros(s))[1..] == DropLeadingZeros(s);
    }
  }

  /** Collapsing the leading zeros of a matching string that does not end in a
    * comma keeps it matching, does not lengthen it, leaves its last character
    * and leaves at most one leading zero. */
  lemma CollapsedShape(t: string)
    requires MatchesFloat(t) && (|t| > 0 ==> t[|t| - 1] != ',')
    ensures var r := CollapseLeadingZeros(t);
      MatchesFloat(r) && |r| <= |t| &&
      (|r| > 0 ==> r[|r| - 1] != ',') &&
      !(|r| >= 2 && r[0] == '0' && r[1] == '0')
  {
    CollapseLeadingZerosMatches(t);
    if |t| > 0 && t[0] == '0' {
      DropLeadingZerosSuffix(t);
      var m :| 0 <= m <= |t| && DropLeadingZeros(t) == t[m..];
      var d := t[m..];
      assert m >= 1;
      var r := "0" + d;
      assert |r| == 1 + |d|;
      if d != [] {
        assert r[|r| - 1] == d[|d| - 1] == t[|t| - 1];
        assert r[1] == d[0];
      }
    }
  }

  /** Every accepted value comes back as a string that still matches the
    * pattern, is no longer than the input, does not end in a comma and does not
    * start with two zeros; every rejected value comes back `undefined`. */
  lemma SanitizeInputSpec(value: string)
    ensures SanitizeInput(value).Some? <==> MatchesFloat(value)
    ensures SanitizeInput(value).Some? ==>
      var r := SanitizeInput(value).value;
      MatchesFloat(r) && |r| <= |value| &&
      (|r| > 0 ==> r[|r| - 1] != ',') &&
      !(|r| >= 2 && r[0] == '0' && r[1] == '0')
  {
    if MatchesFloat(value) {
      var n := |value|;
      var commaFixed := CommaFixed(value);
      if n > 0 && value[n - 1] == ',' {
        TrailingCommaToDot(value);
        assert commaFixed[n - 1] == '.';
      }
      CollapsedShape(commaFixed);
      assert SanitizeInput(value) == Some(CollapseLeadingZeros(commaFixed));
    }
  }

  /** Which string an accepted value becomes: empty exactly for the empty input;
    * otherwise the comma-fixed value with its leading zeros collapsed, so the two
    * agree past their leading zeros and start with a zero together. With the
    * "not two leading zeros" of `SanitizeInputSpec` this fixes the result. */
  lemma SanitizeInputValue(value: string)
    requires MatchesFloat(value)
    ensures var r := SanitizeInput(value).value; var c := CommaFixed(value);
      && (r == "" <==> value == "")
      && DropLeadingZeros(r) == DropLeadingZeros(c)
      && ((|r| > 0 && r[0] == '0') <==> (|c| > 0 && c[0] == '0'))
  {
    var c := CommaFixed(value);
    var r := SanitizeInput(value).value;
    assert r == CollapseLeadingZeros(c);
    if |c| > 0 && c[0] == '0' {
      DropLeadingZerosTwice(c);
      assert r == "0" + DropLeadingZeros(c);
      assert r[1..] == DropLeadingZeros(c);
      assert DropLeadingZeros(r) == DropLeadingZeros(r[1..]);
    }
  }

  /** A trailing comma becomes a dot, an inner comma stays, and a run of leading
    * zeros becomes one zero. */
  lemma SanitizeInputExamples()
    ensures SanitizeInput("") == Some("")
    ensures SanitizeInput("12,") == Some("12.")
    ensures SanitizeInput("1,5") == Some("1,5")
    ensures SanitizeInput("000") == Some("0")
    ensures SanitizeInput("007") == Some("07")
    ensures SanitizeInput("1a") == None
  {
    assert CommaFixed("12,") == "12.";
    assert "000"[1..] == "00" && "00"[1..] == "0" && "0"[1..] == "";
    assert MatchesFloat("000") && DropLeadingZeros("000") == "";
    assert CollapseLeadingZeros(CommaFixed("000")) == "0";
    assert "007"[1..] == "07" && "07"[1..] == "7" && "7"[1..] == "";
    assert MatchesFloat("007") && DropLeadingZeros("007") == "7";
    assert CollapseLeadingZeros(CommaFixed("007")) == "07";
    assert !MatchesFloat("a");
  }

  /** Sanitising a sanitised value returns it unchanged. */
  lemma SanitizeInputIdempotent(value: string)
    requires SanitizeInput(value).Some?
    ensures SanitizeInput(SanitizeInput(value).value) == SanitizeInput(value)
  {
    var commaFixed := CommaFixed(value);
    var r := CollapseLeadingZeros(commaFixed);
    SanitizeInputSpec(value);
    if |commaFixed| > 0 && commaFixed[0] == '0' {
      DropLeadingZerosTwice(commaFixed);
      assert ("0" + DropLeadingZeros(commaFixed))[1..] == DropLeadingZeros(commaFixed);
      assert DropLeadingZeros(r) == DropLeadingZeros(commaFixed);
    }
    assert CollapseLeadingZeros(r) == r;
  }

  /** The digit character for `d`. */
  function DigitChar(d: nat): (c: char)
    requires d < 10
    ensures IsDigit(c)
  {
    ('0' as int + d) as char
  }

  /** The decimal rendering of a whole number, as `${n}` produces it. */
  function NatToString(n: nat): (r: string)
    ensures |r| > 0 && AllDigits(r)
    ensures r[0] == '0' ==> n == 0
  {
    if n < 10 then [DigitChar(n)] else NatToString(n / 10) + [DigitChar(n % 10)]
  }

  /** The value of a string of decimal digits. */
  function DecimalValue(s: string): nat
    requires AllDigits(s)
  {
    if s == [] then 0
    else DecimalValue(s[..|s| - 1]) * 10 + (s[|s| - 1] as int - '0' as int)
  }

  /** Reading back a rendered number gives the number; so distinct numbers render
    * as distinct strings. */
  lemma {:induction false} NatToStringRoundTrip(n: nat)
    ensures DecimalValue(NatToString(n)) == n
  {
    if n >= 10 {
      NatToStringRoundTrip(n / 10);
      var s := NatToString(n);
      assert s[..|s| - 1] == NatToString(n / 10);
    }
  }

  lemma NatToStringInjective(a: nat, b: nat)
    ensures NatToString(a) == NatToString(b) ==> a == b
  {
    NatToStringRoundTrip(a);
    NatToStringRoundTrip(b);
  }
}

/** Phone-number and one-time-code helpers of the authentication flow
    (lib/otp.ts). */
module Otp {
  import opened Text

  /** `Math.floor(100000 + Math.random() * 900000).toString()`, with the
      random draw from [0, 1) passed in. */
  function GenerateOtp(random: real): (code: string)
    requires 0.0 <= random < 1.0
    ensures |code| == 6 && AllDigits(code) && code[0] != '0'
    ensures ParseDecimal(code) == (100000.0 + random * 900000.0).Floor
    ensures 100000 <= ParseDecimal(code) <= 999999
  {
    var x := 100000.0 + random * 900000.0;
    assert 100000.0 <= x < 1000000.0;
    var n := x.Floor;
    assert 100000 <= n < 1000000;
    NatToDecimalLength(n, 5);
    NatToDecimalSpec(n);
    NatToDecimal(n)
  }

  /** `[0-9]{9,12}` matched against the whole of `s`. */
  predicate NineToTwelveDigits(s: string)
  {
    9 <= |s| <= 12 && AllDigits(s)
  }

  /** `/^(?:\+998|0)?[0-9]{9,12}$/.test(s)`: the optional group matches
      `+998`, `0` or nothing, and the rest must be 9 to 12 digits. */
  predicate MatchesPhonePattern(s: string)
  {
    NineToTwelveDigits(s)
    || (StartsWith(s, "+998") && NineToTwelveDigits(s[4..]))
    || (StartsWith(s, "0") && NineToTwelveDigits(s[1..]))
  }

  /** `validatePhoneNumber`: the pattern is tested against the digits only. */
  function ValidatePhoneNumber(phone: string): (valid: bool)
    ensures valid ==> 9 <= |Digits(phone)| <= 13
    ensures 9 <= |Digits(phone)| <= 12 ==> valid
  {
    var d := Digits(phone);
    assert !StartsWith(d, "+998") by {
      if |d| >= 4 {
        assert IsDigit(d[0]);
      }
    }
    MatchesPhonePattern(d)
  }

  /** Once the non-digits are stripped the `+998` alternative can never match,
      so a number is valid exactly when it has 9 to 12 digits, or 13 digits the
      first of which is `0`. */
  lemma ValidatePhoneNumberExactly(phone: string)
    ensures ValidatePhoneNumber(phone) <==>
      var d := Digits(phone);
      9 <= |d| <= 12 || (|d| == 13 && d[0] == '0')
  {
    var d := Digits(phone);
    assert !StartsWith(d, "+998") by {
      if |d| >= 4 {
        assert IsDigit(d[0]);
      }
    }
    if |d| == 13 && d[0] == '0' {
      assert StartsWith(d, "0") && NineToTwelveDigits(d[1..]);
    }
  }

  /** Inputs with the same digits get the same verdict. */
  lemma ValidateSeesOnlyDigits(a: string, b: string)
    requires Digits(a) == Digits(b)
    ensures ValidatePhoneNumber(a) == ValidatePhoneNumber(b)
  {
  }

  /** The if-chain of `normalizePhoneNumber` on the stripped digits. */
  function NormalizeDigits(cleaned: string): string
  {
    if StartsWith(cleaned, "998") then cleaned
    else if StartsWith(cleaned, "0") then "998" + cleaned[1..]
    else if |cleaned| == 9 then "998" + cleaned
    else cleaned
  }

  /** `normalizePhoneNumber`: `+` followed by the normalised digits. */
  function NormalizePhoneNumber(phone: string): (r: string)
    ensures |r| >= 1 && r[0] == '+' && AllDigits(r[1..])
    ensures r[1..] == NormalizeDigits(Digits(phone))
  {
    var cleaned := NormalizeDigits(Digits(phone));
    assert AllDigits(cleaned) by {
      var d := Digits(phone);
      if StartsWith(d, "0") && !StartsWith(d, "998") {
        assert cleaned == "998" + d[1..];
      }
    }
    "+" + cleaned
  }

  /** The four rules of the if-chain, stated on the digits of the input:
      `998…` is kept, a leading `0` becomes `998`, nine digits get `998` in
      front, and anything else is kept. */
  lemma NormalizeRules(phone: string)
    ensures var d := Digits(phone);
      NormalizePhoneNumber(phone) ==
        if StartsWith(d, "998") then "+" + d
        else if StartsWith(d, "0") then "+998" + d[1..]
        else if |d| == 9 then "+998" + d
        else "+" + d
  {
    var d := Digits(phone);
    var r := NormalizePhoneNumber(phone);
    assert r == [r[0]] + r[1..];
    assert r == "+" + NormalizeDigits(d);
    if StartsWith(d, "998") {
    } else if StartsWith(d, "0") {
      assert "+" + ("998" + d[1..]) == "+998" + d[1..];
    } else if |d| == 9 {
      assert "+" + ("998" + d) == "+998" + d;
    }
  }

  /** Inputs with the same digits normalise to the same value. */
  lemma NormalizeSeesOnlyDigits(a: string, b: string)
    requires Digits(a) == Digits(b)
    ensures NormalizePhoneNumber(a) == NormalizePhoneNumber(b)
  {
  }

  /** Normalising a normalised number changes nothing. */
  lemma {:induction false} NormalizeIdempotent(phone: string)
    ensures NormalizePhoneNumber(NormalizePhoneNumber(phone)) == NormalizePhoneNumber(phone)
  {
    var r := NormalizePhoneNumber(phone);
    var c := r[1..];
    assert r == "+" + c;
    DigitsAppend("+", c);
    DigitsOfDigits(c);
    assert Digits(r) == c;
    var d := Digits(phone);
    if !StartsWith(d, "998") && StartsWith(d, "0") {
      assert c == "998" + d[1..];
      assert StartsWith(c, "998");
    } else if !StartsWith(d, "998") && |d| == 9 {
      assert c == "998" + d;
      assert StartsWith(c, "998");
    }
  }

  /** A nine-digit subscriber number that starts with neither `0` nor `998`. */
  predicate IsSubscriberNumber(d: string)
  {
    AllDigits(d) && |d| == 9 && !StartsWith(d, "0") && !StartsWith(d, "998")
  }

  lemma NormalizeBare(d: string)
    requires IsSubscriberNumber(d)
    ensures NormalizePhoneNumber(d) == "+998" + d
  {
    DigitsOfDigits(d);
  }

  lemma NormalizeTrunkPrefixed(d: string)
    requires IsSubscriberNumber(d)
    ensures NormalizePhoneNumber("0" + d) == "+998" + d
  {
    DigitsOfDigits("0" + d);
    assert ("0" + d)[1..] == d;
  }

  lemma NormalizeCountryPrefixed(d: string)
    requires IsSubscriberNumber(d)
    ensures NormalizePhoneNumber("998" + d) == "+998" + d
  {
    DigitsOfDigits("998" + d);
    assert StartsWith("998" + d, "998");
  }

  lemma NormalizeInternational(d: string)
    requires IsSubscriberNumber(d)
    ensures NormalizePhoneNumber("+998" + d) == "+998" + d
  {
    assert "+998" + d == "+" + ("998" + d);
    DigitsAppend("+", "998" + d);
    DigitsOfDigits("998" + d);
    assert StartsWith("998" + d, "998");
  }

  /** The bare, trunk-prefixed (`0…`), country-prefixed (`998…`) and
      international (`+998…`) forms of one subscriber number all normalise to
      the same value. */
  lemma NormalizeLocalForms(d: string)
    requires IsSubscriberNumber(d)
    ensures NormalizePhoneNumber(d) == "+998" + d
    ensures NormalizePhoneNumber("0" + d) == "+998" + d
    ensures NormalizePhoneNumber("998" + d) == "+998" + d
    ensures NormalizePhoneNumber("+998" + d) == "+998" + d
  {
    NormalizeBare(d);
    NormalizeTrunkPrefixed(d);
    NormalizeCountryPrefixed(d);
    NormalizeInternational(d);
  }

  /** `901234567`, `0901234567`, `998901234567` and `+998901234567` all give
      `+998901234567`. */
  lemma NormalizeExample(d: string)
    requires d == "901234567"
    ensures NormalizePhoneNumber(d) == "+998901234567"
    ensures NormalizePhoneNumber("0" + d) == "+998901234567"
    ensures NormalizePhoneNumber("998" + d) == "+998901234567"
    ensures NormalizePhoneNumber("+998" + d) == "+998901234567"
  {
    assert d[0] == '9' && d[1] == '0';
    NormalizeLocalForms(d);
  }

  /** `TEST_PHONE_NUMBERS`: numbers that always receive the same code. */
  const TestPhoneNumbers: map<string, string> := map[
    "+998901234567" := "111111",
    "+998909999999" := "999999",
    "+998900000000" := "123456"
  ]

  /** `isTestPhoneNumber` */
  function IsTestPhoneNumber(phoneNumber: string): (isTest: bool)
    ensures isTest ==> |phoneNumber| == 13 && StartsWith(phoneNumber, "+998")
  {
    phoneNumber in TestPhoneNumbers
  }

  /** `getTestOTP`: `TEST_PHONE_NUMBERS[p] || null`, so an empty code would
      also read as absent. */
  function GetTestOtp(phoneNumber: string): (r: Option<string>)
    ensures r.Some? <==> IsTestPhoneNumber(phoneNumber)
    ensures r.Some? ==> |r.value| == 6 && AllDigits(r.value)
  {
    if phoneNumber in TestPhoneNumbers && TestPhoneNumbers[phoneNumber] != "" then
      Some(TestPhoneNumbers[phoneNumber])
    else
      None
  }

  /** Exactly the three listed numbers are test numbers, each with its code. */
  lemma TestPhoneNumbersExactly(p: string)
    ensures IsTestPhoneNumber(p) <==> p == "+998901234567" || p == "+998909999999" || p == "+998900000000"
    ensures p == "+998901234567" ==> GetTestOtp(p) == Some("111111")
    ensures p == "+998909999999" ==> GetTestOtp(p) == Some("999999")
    ensures p == "+998900000000" ==> GetTestOtp(p) == Some("123456")
  {
  }

  /** `+` and twelve digits starting with `998` is valid and already normalised. */
  lemma CanonicalNumber(c: string)
    requires AllDigits(c) && |c| == 12 && StartsWith(c, "998")
    ensures ValidatePhoneNumber("+" + c) && NormalizePhoneNumber("+" + c) == "+" + c
  {
    DigitsAppend("+", c);
    DigitsOfDigits(c);
    assert Digits("+" + c) == c;
  }

  /** Every test number is a valid number in normalised form, so the
      normalised input of the verification route can hit it. */
  lemma TestPhoneNumbersCanonical(p: string)
    requires IsTestPhoneNumber(p)
    ensures ValidatePhoneNumber(p) && NormalizePhoneNumber(p) == p
  {
    var c := p[1..];
    assert p == "+" + c;
    assert c[0] == '9' && c[1] == '9' && c[2] == '8';
    CanonicalNumber(c);
  }
}

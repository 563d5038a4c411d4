/** Conversion of a Czech bank account, written `[prefix-]number/bankCode`,
    to its IBAN: `CZ`, two check digits, then the 20-digit BBAN made of the
    4-digit bank code, the 6-digit prefix and the 10-digit account number.
    The check digits follow ISO 13616 with the ISO 7064 MOD 97-10 scheme.
    Malformed input is handed back unchanged rather than rejected. */
module Iban {
  import opened Wrappers
  import opened Text

  /** An account already written as an IBAN: `CZ` and 24 characters in all. */
  predicate LooksLikeIban(s: string) {
    |s| == 24 && s[..2] == "CZ"
  }

  /** The pieces of a Czech local account number. */
  datatype LocalAccount = LocalAccount(prefix: string, number: string, bankCode: string)

  /** Reads `[prefix-]number/bankCode`: `None` unless there is exactly one
      `/`.  With exactly one `-` before it, the pieces are prefix and number;
      otherwise the first `-`-piece is the number and the prefix is "0". */
  function ParseLocal(s: string): (r: Option<LocalAccount>)
    ensures r.Some? <==> Count(s, '/') == 1
  {
    var parts := Split(s, '/');
    if |parts| != 2 then None
    else
      var accountParts := Split(parts[0], '-');
      if |accountParts| == 2 then Some(LocalAccount(accountParts[0], accountParts[1], parts[1]))
      else Some(LocalAccount("0", accountParts[0], parts[1]))
  }

  /** None of the pieces read from an account number contains `/`. */
  lemma ParseLocalNoSlash(s: string)
    requires ParseLocal(s).Some?
    ensures var a := ParseLocal(s).value; '/' !in a.prefix && '/' !in a.number && '/' !in a.bankCode
  {
    var parts := Split(s, '/');
    SplitChars(parts[0], '-');
  }

  /** The BBAN: bank code, prefix and number zero-padded to 4, 6 and 10. */
  function Bban(a: LocalAccount): string {
    PadStart(a.bankCode, 4, '0') + (PadStart(a.prefix, 6, '0') + PadStart(a.number, 10, '0'))
  }

  /** Letters count 10 for `A` up to 35 for `Z` in the MOD 97-10 scheme. */
  function LetterCode(c: char): nat
    requires 'A' <= c <= 'Z'
  {
    c as nat - 'A' as nat + 10
  }

  /** The digits the country code `CZ` stands for in the check. */
  const CountryDigits: string := "1235"

  lemma CountryDigitsAreCZ()
    ensures CountryDigits == DecimalString(LetterCode('C')) + DecimalString(LetterCode('Z'))
  {
    assert DecimalString(12) == "12";
    assert DecimalString(35) == "35";
  }

  /** The two check digits for a BBAN: 98 minus the remainder of
      `BBAN ++ "1235" ++ "00"` by 97, padded to two digits; `"NaN"` when the
      BBAN holds a character that is not a digit. */
  function CheckDigits(bban: string): string {
    if AllDigits(bban) then
      ValueAppend(bban, CountryDigits + "00");
      PadStart(DecimalString(98 - Value(bban + CountryDigits + "00") % 97), 2, '0')
    else "NaN"
  }

  /** What conversion yields for an account number. */
  function ToIban(s: string): string {
    if LooksLikeIban(s) then s
    else match ParseLocal(s)
      case None => s
      case Some(a) => "CZ" + CheckDigits(Bban(a)) + Bban(a)
  }

  /** The conversion. */
  method ConvertToIban(accountNumber: string) returns (iban: string)
    ensures iban == ToIban(accountNumber)
  {
    if |accountNumber| >= 2 && accountNumber[..2] == "CZ" && |accountNumber| == 24 {
      return accountNumber;
    }
    var parts := Split(accountNumber, '/');
    if |parts| != 2 {
      return accountNumber;
    }
    var bankCode := PadStart(parts[1], 4, '0');
    var accountParts := Split(parts[0], '-');
    var prefix := "0";
    var account := "0";
    if |accountParts| == 2 {
      prefix := accountParts[0];
      account := accountParts[1];
    } else {
      account := accountParts[0];
    }
    var paddedPrefix := PadStart(prefix, 6, '0');
    var paddedAccount := PadStart(account, 10, '0');
    var baseAccount := paddedPrefix + paddedAccount;
    var bban := bankCode + baseAccount;
    assert ParseLocal(accountNumber) == Some(LocalAccount(prefix, account, parts[1]));
    var checkDigits := ComputeCheckDigits(bban);
    iban := "CZ" + checkDigits + bban;
  }

  /** The check-digit loop: the remainder by 97 of `BBAN ++ "123500"` taken
      digit by digit, then 98 minus it, padded to two digits. */
  method ComputeCheckDigits(bban: string) returns (checkDigits: string)
    ensures checkDigits == CheckDigits(bban)
  {
    var numericString := bban + "123500";
    // None stands for JavaScript's NaN, which `parseInt` yields for a non-digit
    var remainder: Option<nat> := Some(0);
    for i := 0 to |numericString|
      invariant AllDigits(numericString[..i]) ==> remainder == Some(Value(numericString[..i]) % 97)
      invariant !AllDigits(numericString[..i]) ==> remainder == None
    {
      PrefixStep(numericString, i);
      if remainder.Some? && IsDigit(numericString[i]) {
        ModStep(Value(numericString[..i]), DigitValue(numericString[i]));
        remainder := Some((remainder.value * 10 + DigitValue(numericString[i])) % 97);
      } else {
        remainder := None;
      }
    }
    NumericString(bban);
    checkDigits := if remainder.Some? then PadStart(DecimalString(98 - remainder.value), 2, '0') else "NaN";
  }

  /** One more character read: the prefix stays all digits exactly when the
      character is one, and its value then shifts in that digit. */
  lemma PrefixStep(s: string, i: nat)
    requires i < |s|
    ensures AllDigits(s[..i + 1]) <==> AllDigits(s[..i]) && IsDigit(s[i])
    ensures AllDigits(s[..i + 1]) ==> Value(s[..i + 1]) == Value(s[..i]) * 10 + DigitValue(s[i])
  {
    assert s[..i + 1][..i] == s[..i];
  }

  lemma NumericString(bban: string)
    ensures (bban + "123500")[..|bban + "123500"|] == bban + CountryDigits + "00"
    ensures AllDigits(bban + "123500") <==> AllDigits(bban)
  {
    var n := bban + "123500";
    assert n[..|n|] == n;
    assert bban + CountryDigits + "00" == n;
    assert forall k :: 0 <= k < |bban| ==> n[k] == bban[k];
  }

  lemma ModStep(v: nat, d: nat)
    ensures ((v % 97) * 10 + d) % 97 == (v * 10 + d) % 97
  {
    var q := v / 97;
    assert v * 10 + d == 97 * (10 * q) + ((v % 97) * 10 + d);
  }

  // ---------------------------------------------------------------------
  // What the conversion promises
  // ---------------------------------------------------------------------

  /** The ISO 13616 check of a Czech IBAN: with the first four characters
      moved to the end and `CZ` read as 1235, the number leaves remainder 1
      when divided by 97. */
  predicate PassesIbanCheck(iban: string) {
    && |iban| >= 4 && iban[..2] == "CZ"
    && AllDigits(Rearranged(iban))
    && Value(Rearranged(iban)) % 97 == 1
  }

  /** The IBAN with its first four characters moved to the end and the
      country code replaced by its digits. */
  function Rearranged(iban: string): string
    requires |iban| >= 4
  {
    iban[4..] + CountryDigits + iban[2..4]
  }

  /** The check digits of a digit-only BBAN are two digits from 02 to 98. */
  lemma CheckDigitsRange(bban: string)
    requires AllDigits(bban)
    ensures |CheckDigits(bban)| == 2 && AllDigits(CheckDigits(bban))
    ensures 2 <= Value(CheckDigits(bban)) <= 98
    ensures Value(CheckDigits(bban)) == 98 - Value(bban + CountryDigits + "00") % 97
  {
    ValueAppend(bban, CountryDigits + "00");
    var n := 98 - Value(bban + CountryDigits + "00") % 97;
    if n < 10 {
      DecimalLength(n, 1);
    } else {
      DecimalLength(n, 2);
    }
    PadZerosValue(DecimalString(n), 2);
  }

  lemma AddCheck(x: nat)
    ensures (x + 98 - x % 97) % 97 == 1
  {
    var q := x / 97;
    assert x + 98 - x % 97 == 97 * (q + 1) + 1;
  }

  /** Converting a digit-only local account yields an IBAN that passes the
      ISO 13616 check. */
  lemma ConvertedIbanIsValid(s: string)
    requires !LooksLikeIban(s) && ParseLocal(s).Some?
    requires AllDigits(Bban(ParseLocal(s).value))
    ensures PassesIbanCheck(ToIban(s))
  {
    var b := Bban(ParseLocal(s).value);
    CheckDigitsRange(b);
    BuiltIbanPassesCheck(b, CheckDigits(b));
  }

  lemma BuiltIbanPassesCheck(b: string, cd: string)
    requires AllDigits(b) && AllDigits(cd) && |cd| == 2
    requires Value(cd) == 98 - Value(b + CountryDigits + "00") % 97
    ensures PassesIbanCheck("CZ" + cd + b)
  {
    var iban := "CZ" + cd + b;
    var r := b + CountryDigits + cd;
    BuiltSlices(cd, b);
    BuiltRemainder(b, cd);
    PassesFromRearranged(iban, r);
  }

  /** The check digits make the rearranged number leave remainder 1. */
  lemma BuiltRemainder(b: string, cd: string)
    requires AllDigits(b) && AllDigits(cd) && |cd| == 2
    requires Value(cd) == 98 - Value(b + CountryDigits + "00") % 97
    ensures AllDigits(b + CountryDigits + cd) && Value(b + CountryDigits + cd) % 97 == 1
  {
    RearrangedValue(b, cd);
    var x := Value(b + CountryDigits) * 100;
    AddCheck(x);
  }

  lemma PassesFromRearranged(iban: string, r: string)
    requires |iban| >= 4 && iban[..2] == "CZ" && Rearranged(iban) == r
    requires AllDigits(r) && Value(r) % 97 == 1
    ensures PassesIbanCheck(iban)
  {
  }

  lemma BuiltSlices(cd: string, b: string)
    requires |cd| == 2
    ensures var iban := "CZ" + cd + b;
      |iban| >= 4 && iban[..2] == "CZ" && Rearranged(iban) == b + CountryDigits + cd
  {
    var iban := "CZ" + cd + b;
    assert iban[2..4] == cd && iban[4..] == b;
  }

  lemma RearrangedValue(b: string, cd: string)
    requires AllDigits(b) && AllDigits(cd) && |cd| == 2
    ensures AllDigits(b + CountryDigits + cd) && AllDigits(b + CountryDigits + "00")
    ensures Value(b + CountryDigits + "00") == Value(b + CountryDigits) * 100
    ensures Value(b + CountryDigits + cd) == Value(b + CountryDigits) * 100 + Value(cd)
  {
    ValueAppend(b, CountryDigits);
    ValueAppend(b + CountryDigits, cd);
    ValueAppend(b + CountryDigits, "00");
  }

  /** A string without `/` is left as it is. */
  lemma NoSlashUnchanged(r: string)
    requires '/' !in r
    ensures ToIban(r) == r
  {
    CountAbsent(r, '/');
  }

  /** A converted number contains no `/`, so converting again leaves it as it
      is: conversion is idempotent on every input. */
  lemma ToIbanIdempotent(s: string)
    ensures ToIban(ToIban(s)) == ToIban(s)
  {
    if !LooksLikeIban(s) && ParseLocal(s).Some? {
      ConvertedHasNoSlash(s);
      NoSlashUnchanged(ToIban(s));
    }
  }

  lemma ConvertedHasNoSlash(s: string)
    requires !LooksLikeIban(s) && ParseLocal(s).Some?
    ensures '/' !in ToIban(s)
  {
    var a := ParseLocal(s).value;
    ParseLocalNoSlash(s);
    NoSlashPadded(a.bankCode, 4);
    NoSlashPadded(a.prefix, 6);
    NoSlashPadded(a.number, 10);
    var b := Bban(a);
    assert '/' !in b;
    CheckDigitsNoSlash(b);
    assert ToIban(s) == "CZ" + CheckDigits(b) + b;
  }

  lemma CheckDigitsNoSlash(b: string)
    ensures '/' !in CheckDigits(b)
  {
    if AllDigits(b) {
      CheckDigitsRange(b);
      assert forall k :: 0 <= k < 2 ==> IsDigit(CheckDigits(b)[k]);
    }
  }

  lemma NoSlashPadded(s: string, n: nat)
    requires '/' !in s
    ensures '/' !in PadStart(s, n, '0')
  {
    var r := PadStart(s, n, '0');
    PadStartContent(s, n, '0');
    forall k | 0 <= k < |r| ensures r[k] != '/' {
      if k >= |r| - |s| {
        assert r[k] == r[|r| - |s|..][k - (|r| - |s|)];
      }
    }
  }

  /** Input that is already an IBAN, or that does not hold exactly one `/`,
      comes back unchanged; anything else comes back as `CZ`, check digits
      and BBAN. */
  lemma ToIbanCases(s: string)
    ensures LooksLikeIban(s) || Count(s, '/') != 1 ==> ToIban(s) == s
    ensures !LooksLikeIban(s) && Count(s, '/') == 1 ==>
      var b := Bban(ParseLocal(s).value);
      ToIban(s) == "CZ" + CheckDigits(b) + b
  {
  }

  /** Pieces that fit their padding give a BBAN of 20 characters and so an
      IBAN of 24. */
  lemma ConvertedLength(s: string)
    requires !LooksLikeIban(s) && ParseLocal(s).Some?
    requires var a := ParseLocal(s).value; |a.bankCode| <= 4 && |a.prefix| <= 6 && |a.number| <= 10
    requires AllDigits(Bban(ParseLocal(s).value))
    ensures |ToIban(s)| == 24
  {
    var a := ParseLocal(s).value;
    CheckDigitsRange(Bban(a));
    assert |Bban(a)| == 20;
    assert ToIban(s) == "CZ" + CheckDigits(Bban(a)) + Bban(a);
  }
}

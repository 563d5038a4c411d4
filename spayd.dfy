/** The Czech "Short Payment Descriptor" (SPAYD) text put into an invoice's
    QR code: `SPD*1.0`, then `*KEY:value` fields in the fixed order ACC
    (the IBAN), AM (the amount with two decimals), CC (the currency), MSG
    (the sanitised message, only when there is a message) and X-VS (the
    variable symbol, only when there is one). */
module Spayd {
  import opened Text
  import opened Seqs
  import opened Iban
  import opened Wrappers

  // ---------------------------------------------------------------------
  // Number.prototype.toFixed(2)
  // ---------------------------------------------------------------------

  function Abs(x: real): real {
    if x < 0.0 then -x else x
  }

  /** The number of hundredths `toFixed(2)` shows for `x`: the nearest
      integer to `|x| * 100`, the larger one on a tie. */
  function Hundredths(x: real): (n: nat)
    ensures n as real - 0.5 <= Abs(x) * 100.0 < n as real + 0.5
  {
    (Abs(x) * 100.0 + 0.5).Floor
  }

  /** The hundredths of `|x|` in decimal, with at least three digits. */
  function PaddedDigits(x: real): (d: string)
    ensures |d| >= 3
  {
    PadStart(DecimalString(Hundredths(x)), 3, '0')
  }

  /** `x.toFixed(2)`: an optional minus sign, the integer digits, a point and
      exactly two decimals. */
  function ToFixed2(x: real): string {
    var digits := PaddedDigits(x);
    (if x < 0.0 then "-" else "") + digits[..|digits| - 2] + "." + digits[|digits| - 2..]
  }

  /** Reading the text `toFixed(2)` gives back: a minus sign exactly for a
      negative amount (so `-0.00` just below zero), then integer digits, a
      point and two decimals, together denoting the rounded magnitude. */
  lemma ToFixed2Reads(x: real)
    ensures var d := PaddedDigits(x);
      && ToFixed2(x) == (if x < 0.0 then "-" else "") + d[..|d| - 2] + "." + d[|d| - 2..]
      && AllDigits(d) && Value(d[..|d| - 2]) * 100 + Value(d[|d| - 2..]) == Hundredths(x)
  {
    PaddedDigitsValue(x);
  }

  /** A negative amount that rounds to zero keeps its sign: `-0.00`. */
  lemma NegativeZero(x: real)
    requires -0.005 < x < 0.0
    ensures ToFixed2(x) == "-0.00"
  {
    assert Hundredths(x) == 0;
    assert PaddedDigits(x) == "000";
  }

  lemma PaddedDigitsValue(x: real)
    ensures var d := PaddedDigits(x);
      AllDigits(d) && Value(d[..|d| - 2]) * 100 + Value(d[|d| - 2..]) == Hundredths(x)
  {
    PadZerosValue(DecimalString(Hundredths(x)), 3);
    LastTwoDigits(PaddedDigits(x));
  }

  lemma LastTwoDigits(d: string)
    requires AllDigits(d) && |d| >= 2
    ensures Value(d[..|d| - 2]) * 100 + Value(d[|d| - 2..]) == Value(d)
  {
    var i := |d| - 2;
    assert d[..i] + d[i..] == d;
    ValueAppend(d[..i], d[i..]);
    assert Pow10(2) == 100;
  }

  // ---------------------------------------------------------------------
  // The message sanitiser
  // ---------------------------------------------------------------------

  /** The characters a message keeps: capitals, digits, space and
      `$ % * + - . / :`. */
  predicate MessageChar(c: char) {
    ('A' <= c <= 'Z') || ('0' <= c <= '9') || c in {' ', '$', '%', '*', '+', '-', '.', '/', ':'}
  }

  /** The message upper-cased, with every other character removed. */
  function SanitizeMessage(m: string): string {
    Filter(ToUpper(m), MessageChar)
  }

  /** The sanitised message holds only the allowed characters, in the order
      the upper-cased message has them. */
  lemma SanitizeCharset(m: string)
    ensures forall c :: c in SanitizeMessage(m) ==> MessageChar(c)
    ensures IsSubsequence(SanitizeMessage(m), ToUpper(m))
  {
    FilterIsSubsequence(ToUpper(m), MessageChar);
  }

  /** Sanitising twice changes nothing more. */
  lemma SanitizeIdempotent(m: string)
    ensures SanitizeMessage(SanitizeMessage(m)) == SanitizeMessage(m)
  {
    var s := SanitizeMessage(m);
    forall i | 0 <= i < |s| ensures ToUpper(s)[i] == s[i] {
      assert MessageChar(s[i]);
    }
    assert ToUpper(s) == s;
    FilterAll(s, MessageChar);
  }

  // ---------------------------------------------------------------------
  // The SPAYD text
  // ---------------------------------------------------------------------

  datatype Field = Field(key: string, value: string)

  /** The fields of the payment text, in their fixed order. */
  function Fields(iban: string, amount: string, currency: string, vs: string, message: string): seq<Field> {
    [Field("ACC", iban), Field("AM", amount), Field("CC", currency)]
    + (if message != "" then [Field("MSG", SanitizeMessage(message))] else [])
    + (if vs != "" then [Field("X-VS", vs)] else [])
  }

  /** `*KEY:value` for every field, one after the other. */
  function Render(fields: seq<Field>): string {
    if fields == [] then "" else "*" + Piece(fields[0]) + Render(fields[1..])
  }

  function Piece(f: Field): string {
    f.key + ":" + f.value
  }

  const Header: string := "SPD*1.0"

  /** The payment text for an account, amount, currency, variable symbol and
      message. */
  function SpaydText(account: string, amount: real, currency: string, vs: string, message: string): string {
    Header + Render(Fields(ToIban(account), ToFixed2(amount), currency, vs, message))
  }

  /** `generateSpaydString`: converts the account to an IBAN and the amount
      to two decimals, then assembles the text. */
  method GenerateSpaydString(account: string, amount: real, currency: string, vs: string, message: string)
    returns (spayd: string)
    ensures spayd == SpaydText(account, amount, currency, vs, message)
  {
    var iban := ConvertToIban(account);
    var formattedAmount := ToFixed2(amount);
    spayd := AssembleSpayd(iban, formattedAmount, currency, vs, message);
  }

  /** The text itself: the three fixed fields, then the optional ones. */
  method AssembleSpayd(iban: string, formattedAmount: string, currency: string, vs: string, message: string)
    returns (spayd: string)
    ensures spayd == Header + Render(Fields(iban, formattedAmount, currency, vs, message))
  {
    spayd := "SPD*1.0*ACC:" + iban + "*AM:" + formattedAmount + "*CC:" + currency;
    ghost var fields := [Field("ACC", iban), Field("AM", formattedAmount), Field("CC", currency)];
    LeadingFields(iban, formattedAmount, currency);
    if message != "" {
      var sanitizedMessage := SanitizeMessage(message);
      AppendField(spayd, fields, "*MSG:", Field("MSG", sanitizedMessage));
      spayd := spayd + "*MSG:" + sanitizedMessage;
      fields := fields + [Field("MSG", sanitizedMessage)];
    }
    if vs != "" {
      AppendField(spayd, fields, "*X-VS:", Field("X-VS", vs));
      spayd := spayd + "*X-VS:" + vs;
      fields := fields + [Field("X-VS", vs)];
    }
    assert fields == Fields(iban, formattedAmount, currency, vs, message);
  }

  lemma LeadingFields(iban: string, amount: string, currency: string)
    ensures "SPD*1.0*ACC:" + iban + "*AM:" + amount + "*CC:" + currency
            == Header + Render([Field("ACC", iban), Field("AM", amount), Field("CC", currency)])
  {
    var f1, f2, f3 := Field("ACC", iban), Field("AM", amount), Field("CC", currency);
    RenderAppend([f1], f2);
    assert [f1] + [f2] == [f1, f2];
    RenderAppend([f1, f2], f3);
    assert [f1, f2] + [f3] == [f1, f2, f3];
    assert Render([f1]) == "*" + "ACC" + ":" + iban;
    assert "SPD*1.0*ACC:" == Header + "*" + "ACC" + ":";
    assert "*AM:" == "*" + "AM" + ":";
    assert "*CC:" == "*" + "CC" + ":";
  }

  /** Appending `*KEY:value` to the text appends the field. */
  lemma AppendField(spayd: string, fields: seq<Field>, lit: string, f: Field)
    requires spayd == Header + Render(fields)
    requires lit == "*" + f.key + ":"
    ensures spayd + lit + f.value == Header + Render(fields + [f])
  {
    RenderAppend(fields, f);
  }

  lemma {:induction false} RenderAppend(fields: seq<Field>, f: Field)
    ensures Render(fields + [f]) == Render(fields) + "*" + f.key + ":" + f.value
  {
    if fields != [] {
      assert (fields + [f])[1..] == fields[1..] + [f];
      RenderAppend(fields[1..], f);
    }
  }

  /** The keys come in the order ACC, AM, CC, then MSG exactly when there is
      a message, then X-VS exactly when there is a variable symbol. */
  lemma FieldOrder(iban: string, amount: string, currency: string, vs: string, message: string)
    ensures var fs := Fields(iban, amount, currency, vs, message);
      && |fs| == 3 + (if message != "" then 1 else 0) + (if vs != "" then 1 else 0)
      && fs[0].key == "ACC" && fs[1].key == "AM" && fs[2].key == "CC"
      && (message != "" ==> fs[3] == Field("MSG", SanitizeMessage(message)))
      && (vs != "" ==> fs[|fs| - 1] == Field("X-VS", vs))
      && (forall k :: 0 <= k < |fs| ==> fs[k].key != "MSG" || message != "")
      && (forall k :: 0 <= k < |fs| ==> fs[k].key != "X-VS" || vs != "")
  {
  }

  /** Reading the text back: when no value holds the separator `*`,
      splitting on `*` gives the header pieces and then one `KEY:value`
      piece per field, in order. */
  lemma SplitSpayd(fields: seq<Field>)
    requires forall k :: 0 <= k < |fields| ==> '*' !in Piece(fields[k])
    ensures Split(Header + Render(fields), '*') == ["SPD"] + (["1.0"] + Pieces(fields))
  {
    SplitHeader(Render(fields));
    SplitRender("1.0", fields);
  }

  lemma SplitHeader(r: string)
    ensures Split(Header + r, '*') == ["SPD"] + Split("1.0" + r, '*')
  {
    assert Header + r == "SPD" + ['*'] + ("1.0" + r);
    SplitAfterFirst("SPD", '*', "1.0" + r);
  }

  function Pieces(fields: seq<Field>): seq<string> {
    if fields == [] then [] else [Piece(fields[0])] + Pieces(fields[1..])
  }

  lemma {:induction false} SplitRender(head: string, fields: seq<Field>)
    requires '*' !in head
    requires forall k :: 0 <= k < |fields| ==> '*' !in Piece(fields[k])
    ensures Split(head + Render(fields), '*') == [head] + Pieces(fields)
    decreases fields
  {
    if fields == [] {
      assert head + Render(fields) == head;
      SplitNoSeparator(head, '*');
    } else {
      var p := Piece(fields[0]);
      assert head + Render(fields) == head + ['*'] + (p + Render(fields[1..]));
      SplitAfterFirst(head, '*', p + Render(fields[1..]));
      SplitRender(p, fields[1..]);
    }
  }

  /** The sanitiser keeps `*`, the field separator, and does not escape it:
      the sanitised message holds `*` exactly when the message does, and then
      `SplitSpayd` no longer applies. */
  lemma SanitizeKeepsSeparator(m: string)
    ensures '*' in SanitizeMessage(m) <==> '*' in m
  {
    var u := ToUpper(m);
    if '*' in m {
      var i :| 0 <= i < |m| && m[i] == '*';
      assert u[i] == '*';
    }
    if '*' in u {
      var i :| 0 <= i < |u| && u[i] == '*';
      assert m[i] == '*';
    }
  }

  // ---------------------------------------------------------------------
  // The payment text of an invoice
  // ---------------------------------------------------------------------

  /** The QR payment text an invoice gets when it is created or updated:
      none when the issuer has no bank account; otherwise the SPAYD text for
      the invoice total, the currency (CZK when none is given), the invoice
      number as variable symbol and the message `Faktura <number>`. */
  method InvoicePaymentString(bankAccount: Option<string>, total: real, currency: string, number: string)
    returns (qr: Option<string>)
    ensures qr.None? <==> bankAccount.None? || bankAccount.value == ""
    ensures qr.Some? ==> qr.value == SpaydText(bankAccount.value, total, if currency == "" then "CZK" else currency,
                                              number, "Faktura " + number)
  {
    if bankAccount.Some? && bankAccount.value != "" {
      var s := GenerateSpaydString(bankAccount.value, total, if currency == "" then "CZK" else currency,
                                   number, "Faktura " + number);
      qr := Some(s);
    } else {
      qr := None;
    }
  }

  /** For an invoice number made of digits, the message field reads
      `FAKTURA <number>` and comes right before the variable symbol, which is
      the number itself. */
  lemma InvoiceMessageFields(iban: string, amount: string, currency: string, number: string)
    requires number != [] && AllDigits(number)
    ensures Fields(iban, amount, currency, number, "Faktura " + number)[3..]
            == [Field("MSG", "FAKTURA " + number), Field("X-VS", number)]
  {
    UpperInvoiceMessage(number);
    InvoiceMessageChars(number);
    FilterAll("FAKTURA " + number, MessageChar);
  }

  lemma UpperInvoiceMessage(number: string)
    requires AllDigits(number)
    ensures ToUpper("Faktura " + number) == "FAKTURA " + number
  {
    var m, u := "Faktura " + number, "FAKTURA " + number;
    forall i | 0 <= i < |m| ensures ToUpper(m)[i] == u[i] {
      if i >= 8 {
        assert m[i] == number[i - 8] && u[i] == number[i - 8];
      }
    }
  }

  lemma InvoiceMessageChars(number: string)
    requires AllDigits(number)
    ensures forall c :: c in "FAKTURA " + number ==> MessageChar(c)
  {
    var u := "FAKTURA " + number;
    forall c | c in u ensures MessageChar(c) {
      var i :| 0 <= i < |u| && u[i] == c;
      if i >= 8 {
        assert u[i] == number[i - 8];
      }
    }
  }
}

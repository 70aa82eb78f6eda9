/** Printing cents as dollars and reading dollars back. */
module Money {
  import opened Common

  function Digit(n: nat): char
    requires n < 10
  {
    ('0' as int + n) as char
  }

  /** A natural number in decimal, without leading zeros. */
  function Decimal(n: nat): (s: string)
    ensures s != "" && forall c <- s :: IsDigit(c)
  {
    if n < 10 then [Digit(n)] else Decimal(n / 10) + [Digit(n % 10)]
  }

  function ParseDecimal(s: string): nat
    requires forall c <- s :: IsDigit(c)
  {
    if s == "" then 0
    else
      assert IsDigit(s[|s| - 1]);
      ParseDecimal(s[..|s| - 1]) * 10 + (s[|s| - 1] as int - '0' as int)
  }

  /** A comma before every position that a positive multiple of three digits follows, never in front. */
  function Group(digits: string): string {
    if digits == "" then ""
    else if |digits| > 1 && (|digits| - 1) % 3 == 0 then [digits[0], ','] + Group(digits[1..])
    else [digits[0]] + Group(digits[1..])
  }

  function FormatMoney(cents: int): string {
    var amount := if cents < 0 then -cents else cents;
    (if cents < 0 then "-" else "") + "$" + Group(Decimal(amount / 100)) + "."
    + [Digit(amount % 100 / 10), Digit(amount % 10)]
  }

  /** Dollar signs, commas and white space are ignored. */
  function Cleaned(raw: string): string {
    if raw == "" then ""
    else if raw[0] == '$' || raw[0] == ',' || IsSpace(raw[0]) then Cleaned(raw[1..])
    else [raw[0]] + Cleaned(raw[1..])
  }

  /** The longest prefix of digits. */
  function DigitPrefix(s: string): (n: nat)
    ensures n <= |s| && forall i | 0 <= i < n :: IsDigit(s[i])
    ensures n < |s| ==> !IsDigit(s[n])
  {
    if s != "" && IsDigit(s[0]) then 1 + DigitPrefix(s[1..]) else 0
  }

  function DollarsToCents(raw: string): Option<nat> {
    var cleaned := Cleaned(raw);
    var n := DigitPrefix(cleaned);
    if n == 0 then None
    else
      var dollars := ParseDecimal(cleaned[..n]);
      if n == |cleaned| then Some(dollars * 100)
      else
        var rest := cleaned[n + 1..];
        if cleaned[n] != '.' || !(1 <= |rest| <= 2) || DigitPrefix(rest) != |rest| then None
        else
          var padded := if |rest| == 1 then rest + "0" else rest;
          Some(dollars * 100 + ParseDecimal(padded))
  }

  lemma {:induction false} DecimalRoundTrip(n: nat)
    ensures ParseDecimal(Decimal(n)) == n
  {
    if n >= 10 {
      DecimalRoundTrip(n / 10);
      var s := Decimal(n);
      assert s[..|s| - 1] == Decimal(n / 10);
    } else {
      assert Decimal(n)[..0] == "";
    }
  }

  lemma CleanedAppend(a: string, b: string)
    ensures Cleaned(a + b) == Cleaned(a) + Cleaned(b)
  {
    if a == "" {
      assert a + b == b;
    } else {
      assert (a + b)[1..] == a[1..] + b;
      CleanedAppend(a[1..], b);
    }
  }

  lemma CleanedDigits(s: string)
    requires forall c <- s :: IsDigit(c)
    ensures Cleaned(s) == s
  {
    if s != "" {
      assert IsDigit(s[0]);
      CleanedDigits(s[1..]);
    }
  }

  lemma {:induction false} GroupKeepsDigits(digits: string)
    requires forall c <- digits :: IsDigit(c)
    ensures Cleaned(Group(digits)) == digits
  {
    if digits != "" {
      var rest := digits[1..];
      GroupKeepsDigits(rest);
      var head := if |digits| > 1 && (|digits| - 1) % 3 == 0 then [digits[0], ','] else [digits[0]];
      assert Group(digits) == head + Group(rest);
      CleanedAppend(head, Group(rest));
      CleanedDigits([digits[0]]);
      assert [digits[0], ','] == [digits[0]] + [','] && [','][1..] == "";
      CleanedAppend([digits[0]], [',']);
      assert [digits[0]] + rest == digits;
    }
  }

  lemma {:induction false} GroupLength(digits: string)
    ensures |Group(digits)| == |digits| + if digits == "" then 0 else (|digits| - 1) / 3
  {
    if digits != "" {
      GroupLength(digits[1..]);
    }
  }

  /** A group of n digits takes a multiple of four characters exactly when a comma comes next. */
  lemma CommaDue(n: nat)
    ensures (n + (if n == 0 then 0 else (n - 1) / 3) + 1) % 4 == 0 <==> n > 0 && n % 3 == 0
  {
    if n > 0 {
      var q, r := (n - 1) / 3, (n - 1) % 3;
      assert n == 3 * q + r + 1;
      assert n + q + 1 == 4 * q + (r + 2);
    }
  }

  lemma {:induction false} GroupPlacesCommas(digits: string)
    requires forall c <- digits :: IsDigit(c)
    ensures var g := Group(digits); forall i :: 0 <= i < |g| ==> (g[i] == ',' <==> (|g| - i) % 4 == 0)
  {
    if digits != "" {
      assert IsDigit(digits[0]);
      var rest := digits[1..];
      GroupPlacesCommas(rest);
      GroupLength(rest);
      CommaDue(|rest|);
      var g, tail := Group(digits), Group(rest);
      var k := |g| - |tail|;
      assert g == (if k == 2 then [digits[0], ','] else [digits[0]]) + tail;
      forall i | k <= i < |g|
        ensures g[i] == ',' <==> (|g| - i) % 4 == 0
      {
        assert g[i] == tail[i - k] && |g| - i == |tail| - (i - k);
      }
      FirstNotComma(|tail|, k, |rest|);
    }
  }

  /** Neither the leading digit of a group nor the digit before a comma stands where a comma is due. */
  lemma FirstNotComma(tail: nat, k: nat, n: nat)
    requires tail == n + (if n == 0 then 0 else (n - 1) / 3)
    requires k == if n > 0 && n % 3 == 0 then 2 else 1
    ensures (tail + k) % 4 != 0
    ensures k == 2 ==> (tail + 1) % 4 == 0
  {
    CommaDue(n);
  }

  /** Grouping puts the commas where a reader of thousands expects them and nothing else:
      removing them gives the digits back, and counted from the right every fourth character is one. */
  lemma GroupThousands(digits: string)
    requires forall c <- digits :: IsDigit(c)
    ensures var g := Group(digits);
            && Cleaned(g) == digits
            && forall i :: 0 <= i < |g| ==> (g[i] == ',' <==> (|g| - i) % 4 == 0)
  {
    GroupKeepsDigits(digits);
    GroupPlacesCommas(digits);
  }

  lemma DigitPrefixAppend(digits: string, rest: string)
    requires forall c <- digits :: IsDigit(c)
    requires rest != "" ==> !IsDigit(rest[0])
    ensures DigitPrefix(digits + rest) == |digits|
  {
    if digits == "" {
      assert digits + rest == rest;
    } else {
      assert (digits + rest)[1..] == digits[1..] + rest;
      DigitPrefixAppend(digits[1..], rest);
    }
  }

  lemma CleanedSigns()
    ensures Cleaned("") == "" && Cleaned("-") == "-" && Cleaned("$") == "" && Cleaned(".") == "."
  {
    assert "-"[1..] == "" && "$"[1..] == "" && "."[1..] == "";
  }

  lemma CleanedParts(sign: string, group: string, pair: string)
    requires sign == "" || sign == "-"
    ensures Cleaned(sign + "$" + group + "." + pair) == sign + Cleaned(group) + "." + Cleaned(pair)
  {
    CleanedSigns();
    CleanedAppend(sign, "$");
    CleanedAppend(sign + "$", group);
    CleanedAppend(sign + "$" + group, ".");
    CleanedAppend(sign + "$" + group + ".", pair);
    assert Cleaned(sign + "$") == sign;
  }

  lemma FormattedCleans(cents: int)
    ensures var amount := if cents < 0 then -cents else cents;
            Cleaned(FormatMoney(cents))
            == (if cents < 0 then "-" else "") + Decimal(amount / 100) + "." + [Digit(amount % 100 / 10), Digit(amount % 10)]
  {
    var amount := if cents < 0 then -cents else cents;
    var sign := if cents < 0 then "-" else "";
    var pair := [Digit(amount % 100 / 10), Digit(amount % 10)];
    GroupThousands(Decimal(amount / 100));
    CleanedParts(sign, Group(Decimal(amount / 100)), pair);
    CleanedDigits(pair);
  }

  /** Reading a printed amount gives it back exactly when it is not negative; a negative one is refused. */
  lemma MoneyRoundTrip(cents: int)
    ensures DollarsToCents(FormatMoney(cents)) == if cents >= 0 then Some(cents) else None
  {
    FormattedCleans(cents);
    var cleaned := Cleaned(FormatMoney(cents));
    if cents >= 0 {
      var dollars := Decimal(cents / 100);
      var pair := [Digit(cents % 100 / 10), Digit(cents % 10)];
      assert cleaned == dollars + ("." + pair);
      DigitPrefixAppend(dollars, "." + pair);
      assert cleaned[..|dollars|] == dollars && cleaned[|dollars| + 1..] == pair;
      DigitPrefixAppend(pair, "");
      assert pair + "" == pair;
      DecimalRoundTrip(cents / 100);
      PairValue(cents);
    } else {
      assert cleaned[0] == '-';
    }
  }

  lemma PairValue(cents: nat)
    ensures ParseDecimal([Digit(cents % 100 / 10), Digit(cents % 10)]) == cents % 100
  {
    var pair := [Digit(cents % 100 / 10), Digit(cents % 10)];
    assert pair[..1] == [Digit(cents % 100 / 10)];
    assert pair[..1][..0] == "";
    assert ParseDecimal(pair[..1]) == cents % 100 / 10;
  }

  /** A printed amount is a sign if negative, a dollar sign, the grouped dollars, a point and two digits. */
  lemma PrintedShape(cents: int)
    ensures var s, amount := FormatMoney(cents), if cents < 0 then -cents else cents;
            var from := if cents < 0 then 2 else 1;
            && |s| >= from + 4 && s[..from] == (if cents < 0 then "-$" else "$")
            && Cleaned(s[from..|s| - 3]) == Decimal(amount / 100) && IsDigit(s[from])
            && s[|s| - 3] == '.' && IsDigit(s[|s| - 2]) && IsDigit(s[|s| - 1])
            && ParseDecimal([s[|s| - 2], s[|s| - 1]]) == amount % 100
  {
    var amount := if cents < 0 then -cents else cents;
    var s, g := FormatMoney(cents), Group(Decimal(amount / 100));
    var from := if cents < 0 then 2 else 1;
    assert s[from..|s| - 3] == g && g[0] == Decimal(amount / 100)[0];
    GroupKeepsDigits(Decimal(amount / 100));
    PairValue(amount);
    assert [s[|s| - 2], s[|s| - 1]] == [Digit(amount % 100 / 10), Digit(amount % 10)];
    assert Decimal(amount / 100)[0] in Decimal(amount / 100);
  }

  predicate Digits(s: string) {
    forall c <- s :: IsDigit(c)
  }

  /** The cents that none, one or two digits after the point stand for. */
  function CentsOf(fraction: string): nat
    requires Digits(fraction)
  {
    if |fraction| == 1 then ParseDecimal(fraction) * 10 else ParseDecimal(fraction)
  }

  /** The text is dollars, alone or with a point and one or two digits. */
  ghost predicate IsAmount(s: string, dollars: string, fraction: string) {
    && Digits(dollars) && dollars != "" && Digits(fraction) && |fraction| <= 2
    && s == if fraction == "" then dollars else dollars + "." + fraction
  }

  lemma WholeRead(raw: string, dollars: string)
    requires Digits(dollars) && dollars != "" && Cleaned(raw) == dollars
    ensures DollarsToCents(raw) == Some(ParseDecimal(dollars) * 100)
  {
    DigitPrefixAppend(dollars, "");
    assert dollars + "" == dollars && dollars[..|dollars|] == dollars;
  }

  lemma FractionRead(raw: string, dollars: string, fraction: string)
    requires Digits(dollars) && dollars != "" && Digits(fraction) && 1 <= |fraction| <= 2
    requires Cleaned(raw) == dollars + ("." + fraction)
    ensures DollarsToCents(raw) == Some(ParseDecimal(dollars) * 100 + CentsOf(fraction))
  {
    var s := Cleaned(raw);
    DigitPrefixAppend(dollars, "." + fraction);
    DigitPrefixAppend(fraction, "");
    assert fraction + "" == fraction && s[..|dollars|] == dollars && s[|dollars| + 1..] == fraction;
    if |fraction| == 1 {
      OneDigitPadded(fraction);
    }
  }

  lemma OneDigitPadded(fraction: string)
    requires Digits(fraction) && |fraction| == 1
    ensures Digits(fraction + "0") && ParseDecimal(fraction + "0") == ParseDecimal(fraction) * 10
  {
    assert (fraction + "0")[..1] == fraction;
  }

  /** An amount reads as its dollars and cents, a single digit after the point counting tens. */
  lemma AmountRead(raw: string, dollars: string, fraction: string)
    requires IsAmount(Cleaned(raw), dollars, fraction)
    ensures DollarsToCents(raw) == Some(ParseDecimal(dollars) * 100 + CentsOf(fraction))
  {
    if fraction == "" {
      WholeRead(raw, dollars);
    } else {
      assert dollars + "." + fraction == dollars + ("." + fraction);
      FractionRead(raw, dollars, fraction);
    }
  }

  lemma ReadIsAmount(raw: string)
    requires DollarsToCents(raw).Some?
    ensures exists dollars, fraction :: IsAmount(Cleaned(raw), dollars, fraction)
  {
    var s := Cleaned(raw);
    var n := DigitPrefix(s);
    var dollars, fraction := s[..n], if n == |s| then "" else s[n + 1..];
    if n < |s| {
      assert s == dollars + "." + fraction;
    } else {
      assert s == dollars;
    }
    assert IsAmount(s, dollars, fraction);
  }

  /** Reading takes exactly the texts that are an amount once dollar signs, commas and white space are dropped. */
  lemma AmountsExactly(raw: string)
    ensures DollarsToCents(raw).Some? <==> exists dollars, fraction :: IsAmount(Cleaned(raw), dollars, fraction)
  {
    if DollarsToCents(raw).Some? {
      ReadIsAmount(raw);
    }
    if dollars, fraction :| IsAmount(Cleaned(raw), dollars, fraction) {
      AmountRead(raw, dollars, fraction);
    }
  }
}

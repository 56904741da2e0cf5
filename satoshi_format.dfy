/** The display amount of a UTXO: a satoshi count written in bitcoins as a
    decimal string with exactly eight fractional digits, the effect of
    `satoshisToBitcoins(amount).toFixed(8)` for an integer `amount`. */
module SatoshiFormat {

  datatype Option<+T> = None | Some(value: T)

  /** Number of fractional digits in a formatted amount. */
  const DECIMALS: nat := 8

  /** Satoshis in one bitcoin: 10^8, one unit of the last fractional digit. */
  const SATOSHIS_PER_BITCOIN: nat := Pow10(DECIMALS)

  function Pow10(k: nat): (r: nat)
    ensures r >= 1
  {
    if k == 0 then 1 else 10 * Pow10(k - 1)
  }

  /** The conversion factor written out: 10^8 satoshis make one bitcoin. */
  lemma SatoshisPerBitcoinValue()
    ensures SATOSHIS_PER_BITCOIN == 100000000
  {
    assert Pow10(4) == 10000;
  }

  predicate IsDigit(c: char) {
    '0' <= c <= '9'
  }

  predicate AllDigits(s: string) {
    forall i :: 0 <= i < |s| ==> IsDigit(s[i])
  }

  /** A numeral without superfluous leading zeros: "0" or one not starting with '0'. */
  predicate Canonical(s: string) {
    |s| >= 1 && AllDigits(s) && (s[0] == '0' ==> |s| == 1)
  }

  function DigitChar(d: nat): (c: char)
    requires d < 10
    ensures IsDigit(c)
  {
    ('0' as int + d) as char
  }

  function DigitValue(c: char): nat
    requires IsDigit(c)
  {
    c as int - '0' as int
  }

  /** The decimal numeral of `n`. */
  function Decimal(n: nat): (r: string)
    ensures Canonical(r)
  {
    if n < 10 then [DigitChar(n)]
    else
      var r := Decimal(n / 10) + [DigitChar(n % 10)];
      assert r[0] == Decimal(n / 10)[0];
      r
  }

  /** The number a string of decimal digits denotes (leading zeros allowed). */
  function DecimalValue(s: string): nat
    requires AllDigits(s)
  {
    if s == [] then 0 else 10 * DecimalValue(s[..|s| - 1]) + DigitValue(s[|s| - 1])
  }

  function Zeros(k: nat): (r: string)
    ensures |r| == k && forall i :: 0 <= i < k ==> r[i] == '0'
  {
    seq(k, _ => '0')
  }

  /** `s` left-padded with '0' to at least `width` characters. */
  function PadLeft(s: string, width: nat): (r: string)
  {
    if |s| >= width then s else Zeros(width - |s|) + s
  }

  /** The amount string of a UTXO worth `sats` satoshis: whole bitcoins,
      a point, then the remaining satoshis as exactly eight digits. */
  function FormatSats(sats: nat): (r: string)
    ensures |r| >= DECIMALS + 2 && r[|r| - DECIMALS - 1] == '.'
    ensures Canonical(r[..|r| - DECIMALS - 1]) && AllDigits(r[|r| - DECIMALS..])
  {
    var whole := Decimal(sats / SATOSHIS_PER_BITCOIN);
    var frac := Decimal(sats % SATOSHIS_PER_BITCOIN);
    DecimalLength(sats % SATOSHIS_PER_BITCOIN, DECIMALS);
    var r := whole + "." + PadLeft(frac, DECIMALS);
    assert r[..|r| - DECIMALS - 1] == whole;
    assert r[|r| - DECIMALS..] == PadLeft(frac, DECIMALS);
    r
  }

  /** The reference reader of amount strings, independent of FormatSats: one
      or more digits, a point and exactly eight digits, read as a satoshi
      count, i.e. the decimal value of the string times 10^8. */
  function ParseAmount(s: string): Option<nat> {
    if |s| >= DECIMALS + 2 && s[|s| - DECIMALS - 1] == '.'
       && AllDigits(s[..|s| - DECIMALS - 1]) && AllDigits(s[|s| - DECIMALS..])
    then
      Some(DecimalValue(s[..|s| - DECIMALS - 1]) * SATOSHIS_PER_BITCOIN + DecimalValue(s[|s| - DECIMALS..]))
    else None
  }

  // ---------------------------------------------------------------------------
  // Lemmas about numerals

  /** A numeral of a number below 10^k has at most k digits. */
  lemma {:induction false} DecimalLength(n: nat, k: nat)
    requires k >= 1 && n < Pow10(k)
    ensures |Decimal(n)| <= k
  {
    if n >= 10 {
      DecimalLength(n / 10, k - 1);
    }
  }

  /** Reading a numeral back gives the number it was written from. */
  lemma {:induction false} DecimalRoundTrip(n: nat)
    ensures DecimalValue(Decimal(n)) == n
  {
    if n >= 10 {
      var s := Decimal(n);
      assert s[..|s| - 1] == Decimal(n / 10);
      DecimalRoundTrip(n / 10);
    }
  }

  /** Leading zeros do not change the value of a numeral. */
  lemma {:induction false} ZerosPrefixValue(k: nat, s: string)
    requires AllDigits(s)
    ensures AllDigits(Zeros(k) + s) && DecimalValue(Zeros(k) + s) == DecimalValue(s)
    decreases |s|, k
  {
    var t := Zeros(k) + s;
    if s == [] {
      assert t == Zeros(k);
      if k > 0 {
        assert t[..|t| - 1] == Zeros(k - 1) + [];
        ZerosPrefixValue(k - 1, []);
      }
    } else {
      assert t[..|t| - 1] == Zeros(k) + s[..|s| - 1];
      ZerosPrefixValue(k, s[..|s| - 1]);
    }
  }

  /** A string of k digits denotes a number below 10^k. */
  lemma {:induction false} DigitsBound(s: string)
    requires AllDigits(s)
    ensures DecimalValue(s) < Pow10(|s|)
  {
    if s != [] {
      DigitsBound(s[..|s| - 1]);
    }
  }

  /** A digit string whose value is zero consists of zeros only. */
  lemma {:induction false} ZeroValueAllZeros(s: string)
    requires AllDigits(s) && DecimalValue(s) == 0
    ensures forall i :: 0 <= i < |s| ==> s[i] == '0'
  {
    if s != [] {
      ZeroValueAllZeros(s[..|s| - 1]);
      assert forall i :: 0 <= i < |s| - 1 ==> s[i] == s[..|s| - 1][i];
    }
  }

  /** Writing out the value of a canonical numeral gives the numeral back. */
  lemma {:induction false} CanonicalRoundTrip(s: string)
    requires Canonical(s)
    ensures Decimal(DecimalValue(s)) == s
  {
    if |s| > 1 {
      var init := s[..|s| - 1];
      assert init[0] == s[0];
      if DecimalValue(init) == 0 {
        ZeroValueAllZeros(init);
        assert false;
      }
      CanonicalRoundTrip(init);
      assert s == init + [s[|s| - 1]];
    }
  }

  /** Writing out the value of a digit string and padding it back to the
      string's width gives the string back. */
  lemma {:induction false} PaddedRoundTrip(s: string)
    requires |s| >= 1 && AllDigits(s)
    ensures PadLeft(Decimal(DecimalValue(s)), |s|) == s
  {
    var init, last := s[..|s| - 1], s[|s| - 1];
    assert s == init + [last];
    if DecimalValue(init) == 0 {
      ZeroValueAllZeros(init);
      assert Decimal(DecimalValue(s)) == [last];
      assert Zeros(|s| - 1) == init;
    } else {
      PaddedRoundTrip(init);
      var d := Decimal(DecimalValue(init));
      assert Decimal(DecimalValue(s)) == d + [last];
      if |d| < |init| {
        assert Zeros(|s| - |d| - 1) + d == init;
        assert PadLeft(d + [last], |s|) == Zeros(|s| - |d| - 1) + d + [last];
      }
    }
  }

  // ---------------------------------------------------------------------------
  // Lemmas about amount strings

  /** Parsing a formatted amount returns the satoshi count it was made from:
      the string denotes exactly `sats / 10^8` bitcoins. */
  lemma FormatSatsRoundTrip(sats: nat)
    ensures ParseAmount(FormatSats(sats)) == Some(sats)
  {
    SatoshisPerBitcoinValue();
    var q, m := sats / SATOSHIS_PER_BITCOIN, sats % SATOSHIS_PER_BITCOIN;
    var r := FormatSats(sats);
    DecimalLength(m, DECIMALS);
    assert r[..|r| - DECIMALS - 1] == Decimal(q);
    assert r[|r| - DECIMALS..] == PadLeft(Decimal(m), DECIMALS);
    DecimalRoundTrip(q);
    DecimalRoundTrip(m);
    ZerosPrefixValue(DECIMALS - |Decimal(m)|, Decimal(m));
  }

  /** Distinct satoshi counts never share an amount string. */
  lemma FormatSatsInjective(a: nat, b: nat)
    requires FormatSats(a) == FormatSats(b)
    ensures a == b
  {
    FormatSatsRoundTrip(a);
    FormatSatsRoundTrip(b);
  }

  /** Every well-formed amount string whose whole part is canonical is the
      formatting of the satoshi count it parses to; together with
      FormatSatsRoundTrip, FormatSats is a bijection onto such strings. */
  lemma ParseAmountRoundTrip(s: string)
    requires ParseAmount(s).Some? && Canonical(s[..|s| - DECIMALS - 1])
    ensures FormatSats(ParseAmount(s).value) == s
  {
    var whole, frac := s[..|s| - DECIMALS - 1], s[|s| - DECIMALS..];
    var w, f := DecimalValue(whole), DecimalValue(frac);
    assert s == whole + "." + frac;
    assert f < SATOSHIS_PER_BITCOIN by { DigitsBound(frac); }
    var n := w * SATOSHIS_PER_BITCOIN + f;
    assert n / SATOSHIS_PER_BITCOIN == w && n % SATOSHIS_PER_BITCOIN == f;
    CanonicalRoundTrip(whole);
    PaddedRoundTrip(frac);
  }

  /** Two sample amounts: one and a half bitcoin, and a thousand satoshis. */
  lemma FormatSatsExamples()
    ensures FormatSats(150000000) == "1.50000000"
    ensures FormatSats(1000) == "0.00001000"
  {
    SatoshisPerBitcoinValue();
    assert Decimal(1) == "1";
    assert Decimal(50000000) == "50000000";
    assert Decimal(0) == "0";
    assert Decimal(1000) == "1000";
  }
}

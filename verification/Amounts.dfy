/** Text forms exchanged with users and peers: ETH amounts and program ids
    (src/config.rs, src/cli/bot.rs). */
module Amounts {
  import opened Common

  const U128_MAX: nat := 0xFFFF_FFFF_FFFF_FFFF_FFFF_FFFF_FFFF_FFFF
  const WEI_PER_ETH: nat := 1_000_000_000_000_000_000
  const ETH_DECIMALS: nat := 18

  // ----- decimal digits -----

  predicate IsDigit(c: char) { '0' <= c <= '9' }

  function DigitChar(d: nat): char
    requires d < 10
  {
    ('0' as int + d) as char
  }

  predicate AllDigits(s: string) { forall i :: 0 <= i < |s| ==> IsDigit(s[i]) }

  function Value(s: string): nat
    requires AllDigits(s)
  {
    if s == "" then 0 else 10 * Value(s[..|s| - 1]) + (s[|s| - 1] as int - '0' as int)
  }

  function Digits(n: nat): string {
    if n < 10 then [DigitChar(n)] else Digits(n / 10) + [DigitChar(n % 10)]
  }

  lemma ValueAppend(s: string, d: nat)
    requires AllDigits(s) && d < 10
    ensures AllDigits(s + [DigitChar(d)]) && Value(s + [DigitChar(d)]) == 10 * Value(s) + d
  {
    assert (s + [DigitChar(d)])[..|s + [DigitChar(d)]| - 1] == s;
  }

  lemma {:induction false} ValueDigits(n: nat)
    ensures |Digits(n)| > 0 && AllDigits(Digits(n)) && Value(Digits(n)) == n
  {
    if n < 10 {
      ValueAppend("", n);
      assert "" + [DigitChar(n)] == Digits(n);
    } else {
      ValueDigits(n / 10);
      ValueAppend(Digits(n / 10), n % 10);
    }
  }

  function Zeros(n: nat): string { seq(n, _ => '0') }

  /** `{:0<width}`, and `{:0width}` of a number's digits. */
  function PadRight(s: string, width: nat): string { s + Zeros(SatSub(width, |s|)) }

  function PadLeft(s: string, width: nat): string { Zeros(SatSub(width, |s|)) + s }

  lemma {:induction false} ValueLeadingZeros(k: nat, s: string)
    requires AllDigits(s)
    ensures AllDigits(Zeros(k) + s) && Value(Zeros(k) + s) == Value(s)
    decreases k + |s|
  {
    var t := Zeros(k) + s;
    if s != "" {
      ValueLeadingZeros(k, s[..|s| - 1]);
      assert t[..|t| - 1] == Zeros(k) + s[..|s| - 1];
    } else if k > 0 {
      ValueLeadingZeros(k - 1, "");
      assert t[..|t| - 1] == Zeros(k - 1) + "";
    }
  }

  function Pow10(n: nat): nat { if n == 0 then 1 else 10 * Pow10(n - 1) }

  lemma {:induction false} DigitsFit(n: nat, k: nat)
    requires n < Pow10(k) && k > 0
    ensures |Digits(n)| <= k
  {
    if n >= 10 {
      assert k > 1 by { assert Pow10(1) == 10 * Pow10(0); }
      DigitsFit(n / 10, k - 1);
    }
  }

  /** `trim_end_matches('0')`. */
  function TrimZeros(s: string): string {
    if s != "" && s[|s| - 1] == '0' then TrimZeros(s[..|s| - 1]) else s
  }

  lemma {:induction false} TrimThenPad(s: string)
    ensures |TrimZeros(s)| <= |s| && PadRight(TrimZeros(s), |s|) == s
    ensures TrimZeros(s) == s[..|TrimZeros(s)|]
  {
    if s != "" && s[|s| - 1] == '0' {
      TrimThenPad(s[..|s| - 1]);
      assert s == s[..|s| - 1] + "0";
      var k := SatSub(|s| - 1, |TrimZeros(s)|);
      assert Zeros(k + 1) == Zeros(k) + "0";
    }
  }

  lemma {:induction false} TrimToNothing(s: string)
    requires AllDigits(s) && TrimZeros(s) == ""
    ensures Value(s) == 0
  {
    if s != "" { TrimToNothing(s[..|s| - 1]); }
  }

  // ----- parsing -----

  predicate IsWhitespace(c: char) {
    var n := c as int;
    9 <= n <= 13 || n == 32 || n == 0x85 || n == 0xA0 || n == 0x1680 || 0x2000 <= n <= 0x200A
    || n == 0x2028 || n == 0x2029 || n == 0x202F || n == 0x205F || n == 0x3000
  }

  function Trim(s: string): string
    decreases |s|
  {
    if s != "" && IsWhitespace(s[0]) then Trim(s[1..])
    else if s != "" && IsWhitespace(s[|s| - 1]) then Trim(s[..|s| - 1])
    else s
  }

  /** The position of the first decimal point, or the length of the text. */
  function PointIn(s: string): (i: nat)
    ensures i <= |s| && '.' !in s[..i] && (i < |s| ==> s[i] == '.')
  {
    if s == "" || s[0] == '.' then 0 else 1 + PointIn(s[1..])
  }

  lemma {:induction false} PointUnique(s: string, p: nat)
    requires p <= |s| && '.' !in s[..p] && (p < |s| ==> s[p] == '.')
    ensures PointIn(s) == p
  {
    if p > 0 {
      assert s[0] == s[..p][0];
      assert s[1..][..p - 1] == s[..p][1..];
      PointUnique(s[1..], p - 1);
    }
  }

  /** `str::parse::<u128>`: an optional plus sign, then digits, within range. */
  function ParseU128(s: string): Option<nat> {
    var digits := if s != "" && s[0] == '+' then s[1..] else s;
    if digits == "" || !AllDigits(digits) || Value(digits) > U128_MAX then None else Some(Value(digits))
  }

  datatype AmountError = BadInteger | BadFraction | Overflow

  /** The parts before and after the point; an absent part counts as zero. */
  function WholeOf(part: string): Option<nat> { if part == "" then Some(0) else ParseU128(part) }

  function FractionOf(part: string): Option<nat> {
    if part == "" then Some(0) else ParseU128(Kept(part, ETH_DECIMALS))
  }

  /** The `d` digits kept of a fraction: the first `d`, or all with zeros appended. */
  function Kept(t: string, d: nat): string { PadRight(if |t| > d then t[..d] else t, d) }

  function Combine(whole: Option<nat>, frac: Option<nat>): Result<nat, AmountError> {
    if whole.None? then Err(BadInteger)
    else if frac.None? then Err(BadFraction)
    else if whole.value * WEI_PER_ETH + frac.value > U128_MAX then Err(Overflow)
    else Ok(whole.value * WEI_PER_ETH + frac.value)
  }

  /** `eth_to_wei`. `Overflow` stands for the unchecked final multiply and add
      leaving the range of `u128`. */
  function EthToWei(text: string): Result<nat, AmountError> {
    var s := Trim(text);
    var p := PointIn(s);
    Combine(WholeOf(s[..p]), FractionOf(if p < |s| then s[p + 1..] else ""))
  }

  function Print(whole: nat, frac: nat): string {
    if frac == 0 then Digits(whole)
    else Digits(whole) + "." + TrimZeros(PadLeft(Digits(frac), ETH_DECIMALS))
  }

  function WeiToEthString(wei: nat): string { Print(wei / WEI_PER_ETH, wei % WEI_PER_ETH) }

  lemma DigitsAreNeither(s: string)
    requires AllDigits(s)
    ensures '.' !in s && '+' !in s && forall c :: c in s ==> !IsWhitespace(c)
  {
  }

  lemma ParseOfDigits(s: string)
    requires AllDigits(s) && s != "" && Value(s) <= U128_MAX
    ensures ParseU128(s) == Some(Value(s))
  {
    assert s[0] in s;
    DigitsAreNeither(s);
  }

  lemma TrimNothing(s: string)
    requires s != "" && !IsWhitespace(s[0]) && !IsWhitespace(s[|s| - 1])
    ensures Trim(s) == s
  {
  }

  lemma PowIsWei()
    ensures Pow10(ETH_DECIMALS) == WEI_PER_ETH
  {
    assert Pow10(3) == 1_000;
    assert Pow10(6) == 1_000_000;
    assert Pow10(9) == 1_000_000_000;
    assert Pow10(12) == 1_000_000_000_000;
    assert Pow10(15) == 1_000_000_000_000_000;
  }

  /** The fraction as printed: eighteen digits with the fraction's value. */
  lemma PaddedFraction(frac: nat)
    requires 0 < frac < WEI_PER_ETH
    ensures var f := PadLeft(Digits(frac), ETH_DECIMALS);
      |f| == ETH_DECIMALS && AllDigits(f) && Value(f) == frac && TrimZeros(f) != ""
  {
    PowIsWei();
    ValueDigits(frac);
    DigitsFit(frac, ETH_DECIMALS);
    ValueLeadingZeros(SatSub(ETH_DECIMALS, |Digits(frac)|), Digits(frac));
    var f := PadLeft(Digits(frac), ETH_DECIMALS);
    if TrimZeros(f) == "" { TrimToNothing(f); }
  }

  lemma ReadsWhole(a: string)
    requires AllDigits(a) && a != "" && Value(a) * WEI_PER_ETH <= U128_MAX
    ensures EthToWei(a) == Ok(Value(a) * WEI_PER_ETH)
  {
    DigitsAreNeither(a);
    assert a[0] in a && a[|a| - 1] in a && a[..|a|] == a;
    TrimNothing(a);
    PointUnique(a, |a|);
    ParseOfDigits(a);
  }

  lemma TextParts(a: string, t: string)
    requires AllDigits(a) && AllDigits(t) && a != "" && t != ""
    ensures var s := a + "." + t; Trim(s) == s && PointIn(s) == |a| && s[..|a|] == a && s[|a| + 1..] == t
  {
    var s := a + "." + t;
    DigitsAreNeither(a);
    DigitsAreNeither(t);
    assert s[0] in a && s[|s| - 1] in t;
    TrimNothing(s);
    assert s[..|a|] == a && s[|a| + 1..] == t;
    PointUnique(s, |a|);
  }

  lemma PrintedFraction(frac: nat)
    requires 0 < frac < WEI_PER_ETH
    ensures var t := TrimZeros(PadLeft(Digits(frac), ETH_DECIMALS));
      && t != "" && AllDigits(t) && AllDigits(Kept(t, ETH_DECIMALS)) && Value(Kept(t, ETH_DECIMALS)) == frac
  {
    PaddedFraction(frac);
    TrimThenPad(PadLeft(Digits(frac), ETH_DECIMALS));
  }

  lemma ReadsAs(s: string, a: string, t: string, whole: nat, frac: nat)
    requires AllDigits(a) && AllDigits(t) && a != "" && t != "" && s == a + "." + t && AllDigits(Kept(t, ETH_DECIMALS))
    requires Value(a) == whole && Value(Kept(t, ETH_DECIMALS)) == frac && whole * WEI_PER_ETH + frac <= U128_MAX
    ensures EthToWei(s) == Ok(whole * WEI_PER_ETH + frac)
  {
    ReadsRoundedDown(a, t);
  }

  lemma PrintedWithFraction(whole: nat, frac: nat)
    requires 0 < frac < WEI_PER_ETH && whole * WEI_PER_ETH + frac <= U128_MAX
    ensures EthToWei(Print(whole, frac)) == Ok(whole * WEI_PER_ETH + frac)
  {
    ValueDigits(whole);
    PrintedFraction(frac);
    var a, t := Digits(whole), TrimZeros(PadLeft(Digits(frac), ETH_DECIMALS));
    ReadsAs(a + "." + t, a, t, whole, frac);
  }

  lemma PrintedWhole(whole: nat)
    requires whole * WEI_PER_ETH <= U128_MAX
    ensures EthToWei(Print(whole, 0)) == Ok(whole * WEI_PER_ETH)
  {
    ValueDigits(whole);
    ReadsWhole(Digits(whole));
  }

  lemma PrintedParts(whole: nat, frac: nat)
    requires frac < WEI_PER_ETH && whole * WEI_PER_ETH + frac <= U128_MAX
    ensures EthToWei(Print(whole, frac)) == Ok(whole * WEI_PER_ETH + frac)
  {
    if frac == 0 {
      PrintedWhole(whole);
    } else {
      PrintedWithFraction(whole, frac);
    }
  }

  /** Printing an amount and reading it back is exact for every `u128`. */
  lemma AmountRoundTrip(wei: nat)
    requires wei <= U128_MAX
    ensures EthToWei(WeiToEthString(wei)) == Ok(wei)
  {
    PrintedParts(wei / WEI_PER_ETH, wei % WEI_PER_ETH);
  }

  lemma {:induction false} TrimEndsWell(s: string)
    ensures var t := TrimZeros(s); t == "" || t[|t| - 1] != '0'
  {
    if s != "" && s[|s| - 1] == '0' { TrimEndsWell(s[..|s| - 1]); }
  }

  lemma {:induction false} NoLeadingZero(n: nat)
    ensures |Digits(n)| > 0 && (n > 0 ==> Digits(n)[0] != '0')
    ensures n == 0 ==> Digits(n) == "0"
  {
    if n >= 10 {
      NoLeadingZero(n / 10);
      assert Digits(n)[0] == Digits(n / 10)[0];
    }
  }

  /** An amount is printed in its shortest form: no leading zero, and a point only with
      a fraction of at most eighteen digits that does not end in zero. */
  lemma PrintedShortest(wei: nat)
    ensures var s, whole := WeiToEthString(wei), Digits(wei / WEI_PER_ETH);
      if wei % WEI_PER_ETH == 0 then s == whole
      else whole + "." <= s && |whole| + 1 < |s| <= |whole| + 19 && s[|s| - 1] != '0'
    ensures WeiToEthString(wei)[0] == '0' ==> wei < WEI_PER_ETH
  {
    var whole, frac := wei / WEI_PER_ETH, wei % WEI_PER_ETH;
    NoLeadingZero(whole);
    if frac != 0 {
      var f := PadLeft(Digits(frac), ETH_DECIMALS);
      PaddedFraction(frac);
      TrimThenPad(f);
      TrimEndsWell(f);
      var t := TrimZeros(f);
      var s := whole;
      assert WeiToEthString(wei) == Digits(whole) + "." + t;
    }
  }

  /** A sign is allowed before the digits of each part, nothing else. */
  predicate Numeral(s: string) {
    AllDigits(s) || (s != "" && s[0] == '+' && AllDigits(s[1..]))
  }

  /** Anything but a numeral on each side of at most one point is refused, up to the
      digits that are cut off. */
  lemma AcceptedAmount(text: string)
    requires EthToWei(text).Ok?
    ensures var s := Trim(text); var p := PointIn(s);
      && Numeral(s[..p])
      && (p < |s| - 1 ==> Numeral(Kept(s[p + 1..], ETH_DECIMALS)))
      && EthToWei(text).value <= U128_MAX
  {
  }

  // ----- truncation -----

  lemma Distribute(v: nat, p: nat, x: nat, d: nat)
    ensures 10 * (v * p + x) + d == v * (10 * p) + (10 * x + d)
  {
  }

  lemma {:induction false} ValueConcat(a: string, b: string)
    requires AllDigits(a) && AllDigits(b)
    ensures AllDigits(a + b) && Value(a + b) == Value(a) * Pow10(|b|) + Value(b) && Value(b) < Pow10(|b|)
  {
    if b == "" {
      assert a + b == a;
    } else {
      var b', d := b[..|b| - 1], b[|b| - 1] as int - '0' as int;
      ValueConcat(a, b');
      assert (a + b)[..|a + b| - 1] == a + b';
      Distribute(Value(a), Pow10(|b'|), Value(b'), d);
    }
  }

  lemma {:induction false} ValueZeros(k: nat)
    ensures AllDigits(Zeros(k)) && Value(Zeros(k)) == 0
  {
    if k > 0 {
      ValueZeros(k - 1);
      assert Zeros(k)[..|Zeros(k)| - 1] == Zeros(k - 1);
    }
  }

  /** `kept` wei is what `written / scale` of an ETH of `unit` wei comes to, rounded down. */
  predicate RoundedDown(kept: nat, written: nat, scale: nat, unit: nat) {
    kept * scale <= written * unit < (kept + 1) * scale
  }

  lemma ShortFraction(t: string, d: nat)
    requires AllDigits(t) && |t| <= d
    ensures AllDigits(Kept(t, d)) && RoundedDown(Value(Kept(t, d)), Value(t), Pow10(|t|), Pow10(d))
  {
    ValueZeros(d - |t|);
    ValueConcat(t, Zeros(d - |t|));
    PowAdd(|t|, d - |t|);
    ScaleUp(Value(t), Pow10(|t|), Pow10(d - |t|));
  }

  lemma CutFraction(a: string, b: string)
    requires AllDigits(a) && AllDigits(b)
    ensures AllDigits(a + b) && RoundedDown(Value(a), Value(a + b), Pow10(|a| + |b|), Pow10(|a|))
  {
    ValueConcat(a, b);
    assert RoundedDown(Value(a), Value(a + b), Pow10(|a| + |b|), Pow10(|a|)) by {
      PowAdd(|a|, |b|);
      ScaleDown(Value(a), Value(b), Pow10(|a|), Pow10(|b|), Value(a + b), Pow10(|a| + |b|));
    }
  }

  lemma LongFraction(t: string, d: nat)
    requires AllDigits(t) && |t| > d
    ensures AllDigits(Kept(t, d)) && RoundedDown(Value(Kept(t, d)), Value(t), Pow10(|t|), Pow10(d))
  {
    assert t == t[..d] + t[d..];
    assert Kept(t, d) == t[..d];
    CutFraction(t[..d], t[d..]);
  }

  /** A written fraction is read in wei, rounded down, however many digits it has. */
  lemma FractionRoundsDown(t: string)
    requires AllDigits(t)
    ensures var kept := Kept(t, ETH_DECIMALS);
      AllDigits(kept) && RoundedDown(Value(kept), Value(t), Pow10(|t|), Pow10(ETH_DECIMALS))
  {
    if |t| <= ETH_DECIMALS {
      ShortFraction(t, ETH_DECIMALS);
    } else {
      LongFraction(t, ETH_DECIMALS);
    }
  }

  lemma ReadsFraction(t: string)
    requires AllDigits(t) && t != "" && AllDigits(Kept(t, ETH_DECIMALS)) && Value(Kept(t, ETH_DECIMALS)) <= U128_MAX
    ensures FractionOf(t) == Some(Value(Kept(t, ETH_DECIMALS)))
  {
    ParseOfDigits(Kept(t, ETH_DECIMALS));
  }

  lemma ReadsText(s: string, a: string, t: string)
    requires Trim(s) == s && PointIn(s) == |a| < |s| && s[..|a|] == a && s[|a| + 1..] == t
    ensures EthToWei(s) == Combine(WholeOf(a), FractionOf(t))
  {
  }

  lemma Combined(whole: Option<nat>, frac: Option<nat>, w: nat, f: nat)
    requires whole == Some(w) && frac == Some(f) && w * WEI_PER_ETH + f <= U128_MAX
    ensures Combine(whole, frac) == Ok(w * WEI_PER_ETH + f)
  {
  }

  lemma ReadsParts(a: string, t: string)
    requires AllDigits(a) && AllDigits(t) && a != "" && t != ""
    ensures EthToWei(a + "." + t) == Combine(WholeOf(a), FractionOf(t))
  {
    TextParts(a, t);
    ReadsText(a + "." + t, a, t);
  }

  lemma PartsValue(a: string, t: string)
    requires AllDigits(a) && AllDigits(t) && a != "" && t != "" && AllDigits(Kept(t, ETH_DECIMALS))
    requires Value(a) * WEI_PER_ETH + Value(Kept(t, ETH_DECIMALS)) <= U128_MAX
    ensures Combine(WholeOf(a), FractionOf(t)) == Ok(Value(a) * WEI_PER_ETH + Value(Kept(t, ETH_DECIMALS)))
  {
    ParseOfDigits(a);
    ReadsFraction(t);
    Combined(WholeOf(a), FractionOf(t), Value(a), Value(Kept(t, ETH_DECIMALS)));
  }

  /** What `eth_to_wei` returns for digits, a point and digits. */
  lemma ReadsRoundedDown(a: string, t: string)
    requires AllDigits(a) && AllDigits(t) && a != "" && t != "" && AllDigits(Kept(t, ETH_DECIMALS))
    requires Value(a) * WEI_PER_ETH + Value(Kept(t, ETH_DECIMALS)) <= U128_MAX
    ensures EthToWei(a + "." + t) == Ok(Value(a) * WEI_PER_ETH + Value(Kept(t, ETH_DECIMALS)))
  {
    ReadsParts(a, t);
    PartsValue(a, t);
  }

  lemma {:induction false} PowAdd(a: nat, b: nat)
    ensures Pow10(a + b) == Pow10(a) * Pow10(b) && Pow10(a) > 0
  {
    if a > 0 {
      PowAdd(a - 1, b);
      assert Pow10(a) * Pow10(b) == 10 * (Pow10(a - 1) * Pow10(b));
    }
  }

  lemma ScaleUp(v: nat, p: nat, q: nat)
    requires p > 0
    ensures RoundedDown(v * q, v, p, p * q)
  {
    assert v * (p * q) == v * q * p;
    assert (v * q + 1) * p == v * q * p + p;
  }

  lemma ScaleDown(x: nat, y: nat, w: nat, q: nat, v: nat, p: nat)
    requires y < q && w > 0 && v == x * q + y && p == w * q
    ensures RoundedDown(x, v, p, w)
  {
    assert (x * q + y) * w == x * (w * q) + y * w;
    assert (x + 1) * (w * q) == x * (w * q) + q * w;
    assert y * w < q * w;
  }

  // ----- program ids -----

  type u8 = b: nat | b < 0x100
  type u32 = w: nat | w < 0x1_0000_0000

  function Nibble(c: char): (n: nat)
    requires IsHexDigit(c)
    ensures n < 16
  {
    if IsDigit(c) then c as int - '0' as int
    else if 'a' <= c <= 'f' then 10 + (c as int - 'a' as int)
    else 10 + (c as int - 'A' as int)
  }

  function HexChar(n: nat): char
    requires n < 16
  {
    if n < 10 then ('0' as int + n) as char else ('a' as int + n - 10) as char
  }

  function HexEncode(bytes: seq<u8>): string {
    if bytes == [] then "" else [HexChar(bytes[0] / 16), HexChar(bytes[0] % 16)] + HexEncode(bytes[1..])
  }

  function HexDecode(s: string): Option<seq<u8>>
    decreases |s|
  {
    if s == "" then Some([])
    else if |s| == 1 || !IsHexDigit(s[0]) || !IsHexDigit(s[1]) then None
    else
      var rest := HexDecode(s[2..]);
      if rest.None? then None else Some([16 * Nibble(s[0]) + Nibble(s[1])] + rest.value)
  }

  lemma HexCharNibble(n: nat)
    requires n < 16
    ensures IsHexDigit(HexChar(n)) && Nibble(HexChar(n)) == n
  {
  }

  lemma {:induction false} DecodeEncode(bytes: seq<u8>)
    ensures HexDecode(HexEncode(bytes)) == Some(bytes) && |HexEncode(bytes)| == 2 * |bytes|
  {
    if bytes != [] {
      DecodeEncode(bytes[1..]);
      HexCharNibble(bytes[0] / 16);
      HexCharNibble(bytes[0] % 16);
      var s := HexEncode(bytes);
      assert s[0] == HexChar(bytes[0] / 16) && s[1] == HexChar(bytes[0] % 16) && s[2..] == HexEncode(bytes[1..]);
      assert bytes == [bytes[0]] + bytes[1..];
    }
  }

  /** Decoding loses nothing but letter case. */
  lemma {:induction false} EncodeDecode(s: string)
    ensures HexDecode(s).Some? ==> HexEncode(HexDecode(s).value) == LowerAll(s)
    decreases |s|
  {
    if HexDecode(s).Some? && s != "" {
      EncodeDecode(s[2..]);
      var b := HexDecode(s).value;
      assert b[1..] == HexDecode(s[2..]).value;
      assert HexChar(b[0] / 16) == Lower(s[0]) && HexChar(b[0] % 16) == Lower(s[1]);
      assert LowerAll(s) == [Lower(s[0]), Lower(s[1])] + LowerAll(s[2..]);
    }
  }

  lemma {:induction false} DecodesIff(s: string)
    ensures HexDecode(s).Some? <==> |s| % 2 == 0 && forall i :: 0 <= i < |s| ==> IsHexDigit(s[i])
    ensures HexDecode(s).Some? ==> 2 * |HexDecode(s).value| == |s|
    decreases |s|
  {
    if |s| > 1 {
      DecodesIff(s[2..]);
      assert forall i :: 2 <= i < |s| ==> s[i] == s[2..][i - 2];
    }
  }

  type ProgramId = seq<u32>

  /** Least significant byte first. */
  function LeBytes(w: u32): seq<u8> {
    var w1: nat := w / 0x100;
    var w2: nat := w1 / 0x100;
    [w % 0x100, w1 % 0x100, w2 % 0x100, w2 / 0x100]
  }

  function WordOf(b: seq<u8>): u32
    requires |b| == 4
  {
    b[0] as int + 0x100 * (b[1] as int + 0x100 * (b[2] as int + 0x100 * b[3] as int))
  }

  lemma WordBytes(w: u32)
    ensures WordOf(LeBytes(w)) == w
  {
  }

  lemma DivStep(r: nat, q: nat)
    requires r < 0x100
    ensures (r + 0x100 * q) % 0x100 == r && (r + 0x100 * q) / 0x100 == q
  {
  }

  lemma BytesWord(b: seq<u8>)
    requires |b| == 4
    ensures LeBytes(WordOf(b)) == b
  {
    var w2: nat := b[2] as int + 0x100 * b[3] as int;
    var w1: nat := b[1] as int + 0x100 * w2;
    DivStep(b[0], w1);
    DivStep(b[1], w2);
    DivStep(b[2], b[3]);
  }

  function IdBytes(id: ProgramId): seq<u8> { if id == [] then [] else LeBytes(id[0]) + IdBytes(id[1..]) }

  function IdOf(b: seq<u8>): ProgramId
    requires |b| % 4 == 0
  {
    if b == [] then [] else [WordOf(b[..4])] + IdOf(b[4..])
  }

  lemma {:induction false} IdOfBytes(id: ProgramId)
    ensures |IdBytes(id)| == 4 * |id| && IdOf(IdBytes(id)) == id
  {
    if id != [] {
      IdOfBytes(id[1..]);
      WordBytes(id[0]);
      assert IdBytes(id)[..4] == LeBytes(id[0]) && IdBytes(id)[4..] == IdBytes(id[1..]);
    }
  }

  lemma {:induction false} BytesOfId(b: seq<u8>)
    requires |b| % 4 == 0
    ensures IdBytes(IdOf(b)) == b && 4 * |IdOf(b)| == |b|
  {
    if b != [] {
      BytesOfId(b[4..]);
      BytesWord(b[..4]);
      assert IdOf(b)[1..] == IdOf(b[4..]);
      assert b == b[..4] + b[4..];
    }
  }

  lemma {:induction false} BytesOfWord(id: ProgramId, k: nat)
    requires k < |id|
    ensures |IdBytes(id)| == 4 * |id| && IdBytes(id)[4 * k..4 * k + 4] == LeBytes(id[k])
  {
    IdOfBytes(id);
    var rest := IdBytes(id[1..]);
    if k > 0 {
      BytesOfWord(id[1..], k - 1);
      var m := 4 * (k - 1);
      assert IdBytes(id) == LeBytes(id[0]) + rest;
      assert IdBytes(id)[m + 4..m + 8] == rest[m..m + 4];
    } else {
      assert IdBytes(id)[0..4] == LeBytes(id[0]);
    }
  }

  /** The bytes of each word come least significant first. */
  lemma LittleEndian(id: ProgramId, k: nat)
    requires k < |id|
    ensures |IdBytes(id)| == 4 * |id|
    ensures var b := IdBytes(id)[4 * k..4 * k + 4];
      id[k] == b[0] as int + 256 * b[1] as int + 65_536 * b[2] as int + 16_777_216 * b[3] as int
  {
    BytesOfWord(id, k);
    WordBytes(id[k]);
  }

  lemma {:induction false} DigitsOfByte(bytes: seq<u8>, k: nat)
    requires k < |bytes|
    ensures |HexEncode(bytes)| == 2 * |bytes|
    ensures HexEncode(bytes)[2 * k] == HexChar(bytes[k] / 16) && HexEncode(bytes)[2 * k + 1] == HexChar(bytes[k] % 16)
  {
    DecodeEncode(bytes);
    if k > 0 {
      var text, rest := HexEncode(bytes), HexEncode(bytes[1..]);
      var m := 2 * (k - 1);
      DigitsOfByte(bytes[1..], k - 1);
      assert text[2..] == rest;
      assert text[m + 2] == text[2..][m] && text[m + 3] == text[2..][m + 1];
    }
  }

  /** Each byte is written as two digits, the high one first. */
  lemma HighDigitFirst(bytes: seq<u8>, k: nat)
    requires k < |bytes|
    ensures |HexEncode(bytes)| == 2 * |bytes|
    ensures var hi, lo := HexEncode(bytes)[2 * k], HexEncode(bytes)[2 * k + 1];
      && IsHexDigit(hi) && IsHexDigit(lo) && bytes[k] == 16 * Nibble(hi) + Nibble(lo)
  {
    DigitsOfByte(bytes, k);
    HexCharNibble(bytes[k] / 16);
    HexCharNibble(bytes[k] % 16);
  }

  function StripPrefix(s: string): string { if |s| >= 2 && s[..2] == "0x" then s[2..] else s }

  datatype IdError = BadHex | BadLength

  /** `program_id_to_hex`: fills the byte vector word by word. */
  method ProgramIdToHex(id: ProgramId) returns (s: string)
    ensures s == HexEncode(IdBytes(id))
  {
    var bytes: seq<u8> := [];
    var i := 0;
    while i < |id|
      invariant 0 <= i <= |id| && bytes + IdBytes(id[i..]) == IdBytes(id)
    {
      assert id[i..][1..] == id[i + 1..];
      bytes := bytes + LeBytes(id[i]);
      i := i + 1;
    }
    assert id[i..] == [] && bytes + [] == bytes;
    s := HexEncode(bytes);
  }

  /** What `parse_program_id` accepts, and as what. */
  function ParsedId(s: string): Result<ProgramId, IdError> {
    var b := HexDecode(StripPrefix(s));
    if b.None? then Err(BadHex) else if |b.value| != 32 then Err(BadLength) else Ok(IdOf(b.value))
  }

  method ParseProgramId(s: string) returns (r: Result<ProgramId, IdError>)
    ensures r == ParsedId(s)
  {
    var b := HexDecode(StripPrefix(s));
    if b.None? {
      return Err(BadHex);
    }
    if |b.value| != 32 {
      return Err(BadLength);
    }
    var id: ProgramId := [];
    var i := 0;
    while i < 8
      invariant 0 <= i <= 8 && id + IdOf(b.value[4 * i..]) == IdOf(b.value)
    {
      assert b.value[4 * i..][..4] == b.value[4 * i..4 * i + 4] && b.value[4 * i..][4..] == b.value[4 * (i + 1)..];
      id := id + [WordOf(b.value[4 * i..4 * i + 4])];
      i := i + 1;
    }
    assert b.value[32..] == [] && id + [] == id;
    return Ok(id);
  }

  /** Every eight-word id survives its text form, with or without the prefix. */
  lemma ProgramIdRoundTrip(id: ProgramId)
    requires |id| == 8
    ensures ParsedId(HexEncode(IdBytes(id))) == Ok(id) && ParsedId("0x" + HexEncode(IdBytes(id))) == Ok(id)
  {
    IdOfBytes(id);
    var s := HexEncode(IdBytes(id));
    DecodeEncode(IdBytes(id));
    DecodesIff(s);
    assert IsHexDigit(s[1]);
    assert StripPrefix(s) == s;
    assert ("0x" + s)[2..] == s;
  }

  /** The texts accepted are exactly 64 hex digits after at most one prefix, and
      each is the id's own text form up to letter case. */
  lemma AcceptedIdTexts(s: string)
    ensures var t := StripPrefix(s);
      ParsedId(s).Ok? <==> |t| == 64 && forall i :: 0 <= i < |t| ==> IsHexDigit(t[i])
    ensures ParsedId(s).Ok? ==> HexEncode(IdBytes(ParsedId(s).value)) == LowerAll(StripPrefix(s))
  {
    var t := StripPrefix(s);
    DecodesIff(t);
    if ParsedId(s).Ok? {
      EncodeDecode(t);
      BytesOfId(HexDecode(t).value);
    }
  }
}

/** Integer literals against positional notation: what a text of digits means, and what it classifies to. */
module IntegerText {
  import opened Common
  import opened Ascii
  import opened Literals

  const LOWER_DIGITS: string := "0123456789abcdef"
  const UPPER_DIGITS: string := "0123456789ABCDEF"

  /** `c` is a way to write the digit `d`. */
  predicate Writes(c: char, d: nat) {
    d < 16 && (c == LOWER_DIGITS[d] || c == UPPER_DIGITS[d])
  }

  /** `s` writes `n` in the given base, most significant digit first, with any leading zeros and any mixture of
      letter cases. */
  ghost predicate Reads(s: string, base: nat, n: nat)
    requires 2 <= base <= 16
  {
    if s == [] then n == 0
    else Writes(s[|s| - 1], n % base) && Reads(s[..|s| - 1], base, n / base)
  }

  // ---- the writer ------------------------------------------------------------------------

  function Numeral(n: nat, base: nat, upper: bool): string
    requires 2 <= base <= 16
  {
    var digit := DigitOf(n % base, upper);
    if n < base then [digit] else Numeral(n / base, base, upper) + [digit]
  }

  function Zeros(k: nat): string {
    if k == 0 then [] else Zeros(k - 1) + ['0']
  }

  lemma {:induction false} ZerosRead(k: nat, base: nat)
    requires 2 <= base <= 16
    ensures Reads(Zeros(k), base, 0)
  {
    if k > 0 {
      ZerosRead(k - 1, base);
      assert Zeros(k)[..k - 1] == Zeros(k - 1) by { ZerosLength(k - 1); }
      ZerosLength(k);
    }
  }

  lemma {:induction false} ZerosLength(k: nat)
    ensures |Zeros(k)| == k
  {
    if k > 0 { ZerosLength(k - 1); }
  }

  lemma SmallDigit(n: nat, base: nat)
    requires 2 <= base <= 16 && n < base
    ensures n % base == n && n / base == 0
  {
  }

  lemma ReadsSnoc(s: string, c: char, base: nat, n: nat)
    requires 2 <= base <= 16 && Writes(c, n % base) && Reads(s, base, n / base)
    ensures Reads(s + [c], base, n)
  {
    assert (s + [c])[..|s|] == s;
  }

  function DigitOf(d: nat, upper: bool): (c: char)
    requires d < 16
    ensures Writes(c, d)
  {
    if upper then UPPER_DIGITS[d] else LOWER_DIGITS[d]
  }

  /** Every number has a numeral. */
  lemma {:induction false} NumeralIsRead(n: nat, base: nat, upper: bool)
    requires 2 <= base <= 16
    ensures Reads(Numeral(n, base, upper), base, n)
    decreases n
  {
    if n < base {
      SmallDigit(n, base);
      ReadsSnoc([], DigitOf(n % base, upper), base, n);
      assert [] + [DigitOf(n % base, upper)] == Numeral(n, base, upper);
    } else {
      NumeralIsRead(n / base, base, upper);
      ReadsSnoc(Numeral(n / base, base, upper), DigitOf(n % base, upper), base, n);
    }
  }

  /** Leading zeros do not change what a text reads as. */
  lemma {:induction false} LeadingZeros(k: nat, s: string, base: nat, n: nat)
    requires 2 <= base <= 16 && Reads(s, base, n)
    ensures Reads(Zeros(k) + s, base, n)
    decreases |s|
  {
    if s == [] {
      ZerosRead(k, base);
      assert Zeros(k) + s == Zeros(k);
    } else {
      var init, c := s[..|s| - 1], s[|s| - 1];
      LeadingZeros(k, init, base, n / base);
      ReadsSnoc(Zeros(k) + init, c, base, n);
      assert Zeros(k) + init + [c] == Zeros(k) + s;
    }
  }

  lemma NumeralReads(k: nat, n: nat, base: nat, upper: bool)
    requires 2 <= base <= 16
    ensures Reads(Zeros(k) + Numeral(n, base, upper), base, n)
  {
    NumeralIsRead(n, base, upper);
    LeadingZeros(k, Numeral(n, base, upper), base, n);
  }

  // ---- the reader ------------------------------------------------------------------------

  lemma HexWrites(c: char, d: nat)
    ensures Writes(c, d) <==> IsHex(c) && HexVal(c) == d
  {
  }

  lemma DecWrites(c: char, d: nat)
    requires d < 10
    ensures Writes(c, d) <==> IsDigit(c) && c as int - '0' as int == d
  {
  }

  lemma DivMod(q: nat, base: nat, r: nat)
    requires 2 <= base <= 16 && r < base
    ensures (base * q + r) / base == q && (base * q + r) % base == r
  {
  }

  lemma AllHexSnoc(s: string)
    requires s != []
    ensures AllHex(s) <==> AllHex(s[..|s| - 1]) && IsHex(s[|s| - 1])
  {
  }

  lemma AllDigitsSnoc(s: string)
    requires s != []
    ensures AllDigits(s) <==> AllDigits(s[..|s| - 1]) && IsDigit(s[|s| - 1])
  {
  }

  /** Hexadecimal value and positional notation agree on every text. */
  lemma {:induction false} HexReads(s: string, n: nat)
    ensures Reads(s, 16, n) <==> AllHex(s) && HexValue(s) == n
    decreases |s|
  {
    if s != [] {
      var init, c := s[..|s| - 1], s[|s| - 1];
      AllHexSnoc(s);
      HexReads(init, n / 16);
      HexWrites(c, n % 16);
      if AllHex(s) { DivMod(HexValue(init), 16, HexVal(c)); }
    }
  }

  /** Decimal value and positional notation agree on every text. */
  lemma {:induction false} DecReads(s: string, n: nat)
    ensures Reads(s, 10, n) <==> AllDigits(s) && DecValue(s) == n
    decreases |s|
  {
    if s != [] {
      var init, c := s[..|s| - 1], s[|s| - 1];
      AllDigitsSnoc(s);
      DecReads(init, n / 10);
      DecWrites(c, n % 10);
      if AllDigits(s) { DivMod(DecValue(init), 10, c as int - '0' as int); }
    }
  }

  // ---- signs and prefixes ----------------------------------------------------------------

  predicate IsSign(sign: string) { sign == "" || sign == "-" || sign == "+" }

  predicate IsPrefix(prefix: string) { prefix == "0x" || prefix == "0X" }

  lemma BodyBehind(sign: string, body: string)
    requires IsSign(sign) && body != [] && body[0] != '-' && body[0] != '+'
    ensures Body(sign + body) == body
    ensures (sign + body)[0] == '-' <==> sign == "-"
  {
  }

  lemma DecimalLooks(sign: string, s: string)
    requires IsSign(sign) && s != [] && AllDigits(s)
    ensures LooksLikeInt(sign + s) && Body(sign + s) == s && !HexPrefixed(s)
    ensures (sign + s)[0] == '-' <==> sign == "-"
  {
    assert IsDigit(s[0]);
    BodyBehind(sign, s);
    if |s| >= 2 { assert IsDigit(s[1]); }
  }

  lemma HexLooks(sign: string, prefix: string, s: string)
    requires IsSign(sign) && IsPrefix(prefix) && s != [] && AllHex(s)
    ensures var t := sign + (prefix + s);
            && LooksLikeInt(t) && Body(t) == prefix + s && HexPrefixed(prefix + s) && (prefix + s)[2..] == s
            && (t[0] == '-' <==> sign == "-")
  {
    BodyBehind(sign, prefix + s);
    assert (prefix + s)[2..] == s;
  }

  /** `t` is an optional sign and decimal digits, or an optional sign, 0x or 0X, and hexadecimal digits. */
  ghost predicate Decimal(t: string, sign: string, s: string, n: nat) {
    IsSign(sign) && s != [] && Reads(s, 10, n) && t == sign + s
  }

  ghost predicate Hexadecimal(t: string, sign: string, prefix: string, s: string, n: nat) {
    IsSign(sign) && IsPrefix(prefix) && s != [] && Reads(s, 16, n) && t == sign + (prefix + s)
  }

  ghost predicate IsInteger(t: string) {
    || (exists sign, s, n: nat :: Decimal(t, sign, s, n))
    || (exists sign, prefix, s, n: nat :: Hexadecimal(t, sign, prefix, s, n))
  }

  function SignOf(t: string): string {
    if t != [] && (t[0] == '-' || t[0] == '+') then [t[0]] else ""
  }

  lemma LooksIsInteger(t: string)
    requires LooksLikeInt(t)
    ensures IsInteger(t)
  {
    var sign, body := SignOf(t), Body(t);
    assert t == sign + body && IsSign(sign);
    if HexPrefixed(body) {
      var prefix, s := body[..2], body[2..];
      assert body == prefix + s && IsPrefix(prefix);
      HexReads(s, HexValue(s));
      assert Hexadecimal(t, sign, prefix, s, HexValue(s));
    } else {
      DecReads(body, DecValue(body));
      assert Decimal(t, sign, body, DecValue(body));
    }
  }

  /** The integer shape is exactly that grammar. */
  lemma LooksIff(t: string)
    ensures LooksLikeInt(t) <==> IsInteger(t)
  {
    if LooksLikeInt(t) { LooksIsInteger(t); }
    if sign, s, n: nat :| Decimal(t, sign, s, n) {
      DecReads(s, n);
      DecimalLooks(sign, s);
    }
    if sign, prefix, s, n: nat :| Hexadecimal(t, sign, prefix, s, n) {
      HexReads(s, n);
      HexLooks(sign, prefix, s);
    }
  }

  // ---- what integers classify to ---------------------------------------------------------

  /** A decimal default, with any sign and leading zeros, is its exact value when that fits an i64, and stays
      verbatim otherwise. */
  lemma DecimalClassifies(text: string, sign: string, s: string, n: nat, finite: string -> bool)
    requires Decimal(Trim(text), sign, s, n)
    ensures Classify(Some(text), finite) ==
            var v := if sign == "-" then 0 - n else n;
            if -0x8000_0000_0000_0000 <= v <= 0x7fff_ffff_ffff_ffff then LiteralInt(v) else Expr(text)
  {
    DecReads(s, n);
    DecimalLooks(sign, s);
    IntClassifies(text, finite);
  }

  /** A hexadecimal default, with any sign, prefix, leading zeros and letter cases: below 2^63 its value, from
      there to 2^64 the two's complement, and verbatim from 2^64 on. A minus negates, except for 2^63, which has
      no negation and stays verbatim. */
  lemma HexClassifies(text: string, sign: string, prefix: string, s: string, u: nat, finite: string -> bool)
    requires Hexadecimal(Trim(text), sign, prefix, s, u)
    ensures Classify(Some(text), finite) ==
            if u >= 0x1_0000_0000_0000_0000 || (sign == "-" && u == 0x8000_0000_0000_0000) then Expr(text)
            else
              var v := if u < 0x8000_0000_0000_0000 then u else u - 0x1_0000_0000_0000_0000;
              LiteralInt(if sign == "-" then -v else v)
  {
    HexReads(s, u);
    HexLooks(sign, prefix, s);
    IntClassifies(text, finite);
  }

  lemma NothingToTrim(t: string)
    requires t != [] && !IsWhite(t[0]) && !IsWhite(t[|t| - 1])
    ensures Trim(t) == t
  {
  }

  lemma NumeralIsTrim(sign: string, prefix: string, k: nat, n: nat, base: nat, upper: bool)
    requires IsSign(sign) && (prefix == "" || IsPrefix(prefix)) && 2 <= base <= 16
    ensures var t := sign + (prefix + (Zeros(k) + Numeral(n, base, upper))); Trim(t) == t
  {
    var s := Zeros(k) + Numeral(n, base, upper);
    var t := sign + (prefix + s);
    NumeralEnds(n, base, upper);
    ZerosStart(k, n, base, upper);
    assert t[|t| - 1] == s[|s| - 1] == Numeral(n, base, upper)[|Numeral(n, base, upper)| - 1];
    assert t[0] == if sign != "" then sign[0] else if prefix != "" then prefix[0] else s[0];
    NothingToTrim(t);
  }

  lemma {:induction false} NumeralEnds(n: nat, base: nat, upper: bool)
    requires 2 <= base <= 16
    ensures var s := Numeral(n, base, upper); s != [] && IsHex(s[0]) && IsHex(s[|s| - 1])
    decreases n
  {
    HexWrites(DigitOf(n % base, upper), n % base);
    if n >= base { NumeralEnds(n / base, base, upper); }
  }

  lemma {:induction false} ZerosStart(k: nat, n: nat, base: nat, upper: bool)
    requires 2 <= base <= 16
    ensures IsHex((Zeros(k) + Numeral(n, base, upper))[0])
  {
    NumeralEnds(n, base, upper);
    if k > 0 {
      ZerosStart(k - 1, n, base, upper);
      ZerosLength(k - 1);
      ZerosLength(k);
      if k > 1 { assert Zeros(k)[0] == Zeros(k - 1)[0]; }
    }
  }

  /** Printing in base 16 and classifying, in either letter case, after either prefix, with leading zeros. */
  lemma PrintedHexClassifies(u: nat, upper: bool, prefix: string, k: nat, finite: string -> bool)
    requires u < 0x1_0000_0000_0000_0000 && IsPrefix(prefix)
    ensures Classify(Some("" + (prefix + (Zeros(k) + Numeral(u, 16, upper)))), finite) ==
            LiteralInt(if u < 0x8000_0000_0000_0000 then u else u - 0x1_0000_0000_0000_0000)
  {
    var s := Zeros(k) + Numeral(u, 16, upper);
    var text := "" + (prefix + s);
    NumeralReads(k, u, 16, upper);
    NumeralIsTrim("", prefix, k, u, 16, upper);
    assert Hexadecimal(Trim(text), "", prefix, s, u);
    HexClassifies(text, "", prefix, s, u, finite);
  }
}

/** The classifier arm by arm. */
module DefaultArms {
  import opened Common
  import opened Ascii
  import opened Quoting
  import opened Literals

  lemma ClassifiesAs(s: string, finite: string -> bool) returns (k: Option<Kind>)
    ensures k.Some? ==> Recognises(k.value, Trim(s), finite) && Classify(Some(s), finite) == Meaning(k.value, s, finite)
    ensures k.None? ==> Classify(Some(s), finite) == Expr(s) && forall j :: !Recognises(j, Trim(s), finite)
  {
    if j :| Recognises(j, Trim(s), finite) {
      k := Some(j);
      RecognisedClassifies(s, finite, j);
    } else {
      k := None;
      NoneRecognised(SOURCE_ORDER, s, finite);
    }
  }

  /** A missing default is the only one without a value. */
  lemma NoDefaultIff(raw: Option<string>, finite: string -> bool)
    ensures Classify(raw, finite) == NoDefault <==> raw == None
  {
    if raw.Some? { var k := ClassifiesAs(raw.value, finite); }
  }

  /** What a value that is not verbatim says about the text it came from. */
  lemma OnlyFrom(s: string, finite: string -> bool, k: Kind, v: DefaultValue)
    requires k != KInt && v == Classify(Some(s), finite)
    ensures Recognises(k, Trim(s), finite) ==> v == Meaning(k, s, finite)
    ensures !Recognises(k, Trim(s), finite) ==>
              match k
              case KNull => v != LiteralNull
              case KTrue => v != LiteralBool(true)
              case KFalse => v != LiteralBool(false)
              case KTime => v != Current(Time)
              case KDate => v != Current(Date)
              case KTimestamp => v != Current(Timestamp)
              case KText => !v.LiteralText?
              case KBlob => !v.Blob?
              case KInt => true
              case KFloat => !v.LiteralFloat?
  {
    if Recognises(k, Trim(s), finite) {
      RecognisedClassifies(s, finite, k);
    } else {
      var j := ClassifiesAs(s, finite);
    }
  }

  /** The keywords, in any letter case and with white space around them, and nothing else. */
  lemma KeywordIff(s: string, finite: string -> bool)
    ensures Classify(Some(s), finite) == LiteralNull <==> SameName(Trim(s), "null")
    ensures Classify(Some(s), finite) == LiteralBool(true) <==> SameName(Trim(s), "true")
    ensures Classify(Some(s), finite) == LiteralBool(false) <==> SameName(Trim(s), "false")
    ensures Classify(Some(s), finite) == Current(Time) <==> SameName(Trim(s), "current_time")
    ensures Classify(Some(s), finite) == Current(Date) <==> SameName(Trim(s), "current_date")
    ensures Classify(Some(s), finite) == Current(Timestamp) <==> SameName(Trim(s), "current_timestamp")
  {
    Keywords(Trim(s));
    var v := Classify(Some(s), finite);
    OnlyFrom(s, finite, KNull, v);
    OnlyFrom(s, finite, KTrue, v);
    OnlyFrom(s, finite, KFalse, v);
    OnlyFrom(s, finite, KTime, v);
    OnlyFrom(s, finite, KDate, v);
    OnlyFrom(s, finite, KTimestamp, v);
  }

  lemma SameAs(t: string, upper: string, lower: string)
    requires |upper| == |lower| && forall i :: 0 <= i < |upper| ==> Lower(upper[i]) == Lower(lower[i])
    ensures SameName(t, upper) <==> SameName(t, lower)
  {
  }

  lemma Keywords(t: string)
    ensures SameName(t, "NULL") <==> SameName(t, "null")
    ensures SameName(t, "TRUE") <==> SameName(t, "true")
    ensures SameName(t, "FALSE") <==> SameName(t, "false")
    ensures SameName(t, "CURRENT_TIME") <==> SameName(t, "current_time")
    ensures SameName(t, "CURRENT_DATE") <==> SameName(t, "current_date")
    ensures SameName(t, "CURRENT_TIMESTAMP") <==> SameName(t, "current_timestamp")
  {
    SameAs(t, "NULL", "null");
    SameAs(t, "TRUE", "true");
    SameAs(t, "FALSE", "false");
    SameAs(t, "CURRENT_TIME", "current_time");
    SameAs(t, "CURRENT_DATE", "current_date");
    SameAs(t, "CURRENT_TIMESTAMP", "current_timestamp");
  }

  /** Text, blobs and floats: exactly their spellings, with exactly their contents. */
  lemma TextArmIff(s: string, finite: string -> bool, text: string)
    ensures Classify(Some(s), finite) == LiteralText(text) <==> Trim(s) == Quoted('\'', text)
  {
    TextIff(Trim(s), text);
    OnlyFrom(s, finite, KText, Classify(Some(s), finite));
  }

  lemma BlobArmIff(s: string, finite: string -> bool, bytes: seq<Byte>)
    ensures Classify(Some(s), finite) == Blob(bytes) <==> IsBlobOf(Trim(s), bytes)
  {
    BlobIff(Trim(s), bytes);
    OnlyFrom(s, finite, KBlob, Classify(Some(s), finite));
  }

  lemma FloatArmIff(s: string, finite: string -> bool, text: string)
    ensures Classify(Some(s), finite) == LiteralFloat(text) <==> text == Trim(s) && FloatShape(text) && finite(text)
  {
    OnlyFrom(s, finite, KFloat, Classify(Some(s), finite));
  }

  /** `x` or `X`, and the bytes spelt between quotes. */
  ghost predicate IsBlobOf(t: string, bytes: seq<Byte>) {
    && |t| >= 3 && (t[0] == 'x' || t[0] == 'X') && t[1] == '\'' && t[|t| - 1] == '\''
    && Spells(t[2..|t| - 1], bytes)
  }

  lemma BlobIff(t: string, bytes: seq<Byte>)
    ensures IsBlobOf(t, bytes) <==> BlobShape(t) && Pairs(BlobInner(t).value) == bytes
  {
    if |t| >= 3 {
      assert t[1..][1..|t[1..]| - 1] == t[2..|t| - 1];
      SpellsIff(t[2..|t| - 1], bytes);
    }
  }

  /** No other recogniser than the integer one takes the text. */
  ghost predicate OnlyInt(t: string, finite: string -> bool) {
    forall k: Kind :: k != KInt ==> !Recognises(k, t, finite)
  }

  lemma RecognisedAlone(t: string, finite: string -> bool, k: Kind, j: Kind)
    requires Recognises(k, t, finite) && j != k
    ensures !Recognises(j, t, finite)
  {
    if Recognises(j, t, finite) { KindsAreDisjoint(j, k, t, finite); }
  }

  /** Everything else is kept as it was written, white space included. */
  lemma VerbatimIff(s: string, finite: string -> bool, text: string)
    ensures Classify(Some(s), finite) == Expr(text) <==>
            text == s && OnlyInt(Trim(s), finite) && (LooksLikeInt(Trim(s)) ==> ParseIntLiteral(Trim(s)).None?)
  {
    var k := ClassifiesAs(s, finite);
    if k == Some(KInt) {
      forall j: Kind | j != KInt ensures !Recognises(j, Trim(s), finite) { RecognisedAlone(Trim(s), finite, KInt, j); }
    } else if k.Some? {
      assert !OnlyInt(Trim(s), finite);
    } else {
      assert OnlyInt(Trim(s), finite) && !Recognises(KInt, Trim(s), finite);
    }
  }
}

/** The literal grammar of a column's DEFAULT clause. */
module Literals {
  import opened Common
  import opened Ascii
  import opened Quoting

  datatype CurrentKind = Time | Date | Timestamp

  /** A float literal is kept as its text: the conversion to f64 is SQLite's and Rust's. */
  datatype DefaultValue =
    | NoDefault
    | LiteralNull
    | LiteralBool(b: bool)
    | LiteralInt(i: int)
    | LiteralFloat(text: string)
    | LiteralText(s: string)
    | Blob(bytes: seq<Byte>)
    | Current(kind: CurrentKind)
    | Expr(verbatim: string)

  // ---- characters ------------------------------------------------------------------------

  /** Unicode White_Space, which is what `str::trim` strips. */
  predicate IsWhite(c: char) {
    var u := c as int;
    || 0x09 <= u <= 0x0D || u == 0x20 || u == 0x85 || u == 0xA0 || u == 0x1680
    || 0x2000 <= u <= 0x200A || u == 0x2028 || u == 0x2029 || u == 0x202F || u == 0x205F || u == 0x3000
  }

  predicate IsDigit(c: char) { '0' <= c <= '9' }

  predicate IsHex(c: char) { '0' <= c <= '9' || 'a' <= c <= 'f' || 'A' <= c <= 'F' }

  predicate AllDigits(s: string) { forall i :: 0 <= i < |s| ==> IsDigit(s[i]) }

  predicate AllHex(s: string) { forall i :: 0 <= i < |s| ==> IsHex(s[i]) }

  function HexVal(c: char): (v: nat)
    requires IsHex(c)
    ensures v < 16
  {
    if c <= '9' then c as int - '0' as int
    else if c <= 'F' then c as int - 'A' as int + 10
    else c as int - 'a' as int + 10
  }

  function Trim(s: string): string {
    if s == [] then []
    else if IsWhite(s[0]) then Trim(s[1..])
    else if IsWhite(s[|s| - 1]) then Trim(s[..|s| - 1])
    else s
  }

  // ---- text ------------------------------------------------------------------------------

  /** The inside of `'...'`. */
  function Inner(t: string): Option<string> {
    if |t| >= 2 && t[0] == '\'' && t[|t| - 1] == '\'' then Some(t[1..|t| - 1]) else None
  }

  function TextValue(t: string): Option<string> {
    match Inner(t)
    case None => None
    case Some(inner) => Undoubled('\'', inner)
  }

  method ParseTextLiteral(t: string) returns (r: Option<string>)
    ensures r == TextValue(t)
    ensures forall s :: r == Some(s) <==> t == Quoted('\'', s)
  {
    forall s ensures TextValue(t) == Some(s) <==> t == Quoted('\'', s) { TextIff(t, s); }
    if |t| == 0 || t[0] != '\'' { return None; }
    var tail := t[1..];
    if |tail| == 0 || tail[|tail| - 1] != '\'' { return None; }
    var inner := tail[..|tail| - 1];
    assert inner == t[1..|t| - 1];
    var out: string := [];
    var i := 0;
    assert inner[0..] == inner;
    PrependNothing(Undoubled('\'', inner));
    while i < |inner|
      invariant 0 <= i <= |inner|
      invariant Undoubled('\'', inner) == Prepend(out, Undoubled('\'', inner[i..]))
    {
      var c := inner[i];
      if c == '\'' {
        // a quote counts only as half of a pair; on its own it ends the literal too early
        if i + 1 < |inner| && inner[i + 1] == '\'' {
          assert inner[i..][2..] == inner[i + 2..];
          PrependTwice(out, ['\''], Undoubled('\'', inner[i + 2..]));
          out := out + ['\''];
          i := i + 2;
        } else {
          return None;
        }
      } else {
        assert inner[i..][1..] == inner[i + 1..];
        PrependTwice(out, [c], Undoubled('\'', inner[i + 1..]));
        out := out + [c];
        i := i + 1;
      }
    }
    assert inner[i..] == [] && out + [] == out;
    return Some(out);
  }

  lemma PrependNothing(rest: Option<string>)
    ensures Prepend([], rest) == rest
  {
    if rest.Some? { assert [] + rest.value == rest.value; }
  }

  lemma PrependTwice(a: string, b: string, rest: Option<string>)
    ensures Prepend(a, Prepend(b, rest)) == Prepend(a + b, rest)
  {
    if rest.Some? { assert a + (b + rest.value) == a + b + rest.value; }
  }

  lemma InnerIff(t: string, body: string)
    ensures Inner(t) == Some(body) <==> t == ['\''] + body + ['\'']
  {
    if |t| >= 2 { assert t == [t[0]] + t[1..|t| - 1] + [t[|t| - 1]]; }
  }

  lemma UndoubledIff(t: string, s: string)
    ensures Undoubled('\'', t) == Some(s) <==> t == Doubled('\'', s)
  {
    if Undoubled('\'', t) == Some(s) { DoubleUndoubled('\'', t, s); }
    if t == Doubled('\'', s) { UndoubleDoubled('\'', s); }
  }

  /** The text parser is the two-sided inverse of the pragma string printer: it accepts exactly what the
      printer writes, and reads back exactly what was printed. */
  lemma TextIff(t: string, s: string)
    ensures TextValue(t) == Some(s) <==> t == Quoted('\'', s)
  {
    InnerIff(t, Doubled('\'', s));
    if Inner(t).Some? { UndoubledIff(Inner(t).value, s); }
  }

  // ---- blobs -----------------------------------------------------------------------------

  /** `hex` spells `bytes`, two digits each, in any mixture of letter cases. */
  ghost predicate Spells(hex: string, bytes: seq<Byte>)
    decreases |bytes|
  {
    if bytes == [] then hex == []
    else
      && |hex| >= 2 && IsHex(hex[0]) && IsHex(hex[1])
      && bytes[0] == 16 * HexVal(hex[0]) + HexVal(hex[1])
      && Spells(hex[2..], bytes[1..])
  }

  function BlobInner(t: string): Option<string> {
    if |t| >= 1 && (t[0] == 'x' || t[0] == 'X') then Inner(t[1..]) else None
  }

  /** The shape test of the blob recogniser. */
  predicate BlobShape(t: string) {
    BlobInner(t).Some? && |BlobInner(t).value| % 2 == 0 && AllHex(BlobInner(t).value)
  }

  function Pairs(hex: string): (bytes: seq<Byte>)
    requires |hex| % 2 == 0 && AllHex(hex)
    decreases |hex|
  {
    if hex == [] then [] else [16 * HexVal(hex[0]) + HexVal(hex[1])] + Pairs(hex[2..])
  }

  method ParseBlobLiteral(t: string) returns (r: Option<seq<Byte>>)
    ensures r == (if BlobShape(t) then Some(Pairs(BlobInner(t).value)) else None)
    ensures forall bytes :: r == Some(bytes) <==> BlobInner(t).Some? && Spells(BlobInner(t).value, bytes)
  {
    forall bytes
      ensures (BlobShape(t) && Pairs(BlobInner(t).value) == bytes) <==> BlobInner(t).Some? && Spells(BlobInner(t).value, bytes)
    {
      if BlobInner(t).Some? { SpellsIff(BlobInner(t).value, bytes); }
    }
    if |t| == 0 || (t[0] != 'x' && t[0] != 'X') { return None; }
    var rest := t[1..];
    if |rest| < 2 || rest[0] != '\'' || rest[|rest| - 1] != '\'' { return None; }
    var inner := rest[1..|rest| - 1];
    if |inner| % 2 != 0 || !AllHex(inner) { return None; }
    var bytes := PairLoop(inner);
    return Some(bytes);
  }

  lemma PairsStep(inner: string, k: nat, bytes: seq<Byte>)
    requires |inner| % 2 == 0 && AllHex(inner) && k % 2 == 0 && k < |inner|
    ensures bytes + Pairs(inner[k..]) == bytes + [16 * HexVal(inner[k]) + HexVal(inner[k + 1])] + Pairs(inner[k + 2..])
  {
    var first, rest := 16 * HexVal(inner[k]) + HexVal(inner[k + 1]), Pairs(inner[k + 2..]);
    assert inner[k..][2..] == inner[k + 2..];
    assert bytes + ([first] + rest) == bytes + [first] + rest;
  }

  method PairLoop(inner: string) returns (bytes: seq<Byte>)
    requires |inner| % 2 == 0 && AllHex(inner)
    ensures bytes == Pairs(inner)
  {
    bytes := [];
    var k := 0;
    assert inner[0..] == inner;
    while k < |inner|
      invariant 0 <= k <= |inner| && k % 2 == 0
      invariant Pairs(inner) == bytes + Pairs(inner[k..])
    {
      PairsStep(inner, k, bytes);
      bytes := bytes + [16 * HexVal(inner[k]) + HexVal(inner[k + 1])];
      k := k + 2;
    }
  }

  /** The blob parser accepts exactly the spellings, and every spelling has one reading. */
  lemma {:induction false} SpellsIff(hex: string, bytes: seq<Byte>)
    ensures Spells(hex, bytes) <==> |hex| % 2 == 0 && AllHex(hex) && Pairs(hex) == bytes
    decreases |hex|
  {
    if |hex| >= 2 {
      var rest := hex[2..];
      assert AllHex(hex) <==> IsHex(hex[0]) && IsHex(hex[1]) && AllHex(rest) by {
        assert forall i :: 2 <= i < |hex| ==> hex[i] == rest[i - 2];
        assert forall i :: 0 <= i < |rest| ==> rest[i] == hex[i + 2];
      }
      if bytes != [] {
        SpellsIff(rest, bytes[1..]);
        if |hex| % 2 == 0 && AllHex(hex) {
          assert Pairs(hex) == [16 * HexVal(hex[0]) + HexVal(hex[1])] + Pairs(rest);
          assert bytes == [bytes[0]] + bytes[1..];
        }
      }
    }
  }

  function HexDigit(v: nat, upper: bool): (c: char)
    requires v < 16
    ensures IsHex(c) && HexVal(c) == v
  {
    if v < 10 then (v + '0' as int) as char else if upper then (v - 10 + 'A' as int) as char else (v - 10 + 'a' as int) as char
  }

  /** Printing bytes in either letter case. */
  function HexText(bytes: seq<Byte>, upper: bool): (hex: string)
    ensures Spells(hex, bytes)
  {
    if bytes == [] then []
    else
      var rest := HexText(bytes[1..], upper);
      var hex := [HexDigit(bytes[0] / 16, upper), HexDigit(bytes[0] % 16, upper)] + rest;
      assert hex[2..] == rest;
      hex
  }

  // ---- integers --------------------------------------------------------------------------

  function SignLen(t: string): nat {
    if t != [] && (t[0] == '-' || t[0] == '+') then 1 else 0
  }

  function Body(t: string): string {
    t[SignLen(t)..]
  }

  predicate HexPrefixed(body: string) {
    |body| >= 2 && body[0] == '0' && (body[1] == 'x' || body[1] == 'X')
  }

  predicate LooksLikeInt(t: string) {
    var body := Body(t);
    if HexPrefixed(body) then |body| > 2 && AllHex(body[2..]) else body != [] && AllDigits(body)
  }

  function DecValue(s: string): nat
    requires AllDigits(s)
  {
    if s == [] then 0 else 10 * DecValue(s[..|s| - 1]) + (s[|s| - 1] as int - '0' as int)
  }

  function HexValue(s: string): nat
    requires AllHex(s)
  {
    if s == [] then 0 else 16 * HexValue(s[..|s| - 1]) + HexVal(s[|s| - 1])
  }

  function Signed(neg: bool, v: int): int {
    if neg then -v else v
  }

  /** `str::parse::<i64>`: an optional sign, at least one digit, and the value must fit. */
  function ParseI64(s: string): Option<int> {
    var body := Body(s);
    if body == [] || !AllDigits(body) then None
    else
      var v := Signed(s[0] == '-', DecValue(body));
      if -TWO_63 <= v < TWO_63 then Some(v) else None
  }

  /** `u64::from_str_radix(s, 16)`: an optional plus, at least one digit, and the value must fit. */
  function ParseHexU64(s: string): Option<nat> {
    var body := if s != [] && s[0] == '+' then s[1..] else s;
    if body == [] || !AllHex(body) then None
    else if HexValue(body) < TWO_64 then Some(HexValue(body)) else None
  }

  /** `as i64`: two's complement. */
  function AsI64(u: nat): int
    requires u < TWO_64
  {
    if u < TWO_63 then u else u - TWO_64
  }

  function ParseIntLiteral(t: string): Option<int> {
    var neg := t != [] && t[0] == '-';
    var body := if neg then t[1..] else if t != [] && t[0] == '+' then t[1..] else t;
    if HexPrefixed(body) then
      match ParseHexU64(body[2..])
      case None => None
      case Some(u) =>
        var value := AsI64(u);
        if neg then (if value == -TWO_63 then None else Some(-value)) else Some(value)
    else ParseI64(if neg then t else body)
  }

  /** The number an integer-shaped literal denotes: decimal as written, hexadecimal as 64-bit two's complement,
      negated afterwards. */
  function Denotes(t: string): Option<int>
    requires LooksLikeInt(t)
  {
    var neg := t[0] == '-';
    var body := Body(t);
    if HexPrefixed(body) then
      if HexValue(body[2..]) >= TWO_64 then None
      else Some(Signed(neg, AsI64(HexValue(body[2..]))))
    else Some(Signed(neg, DecValue(body)))
  }

  /** Every integer-shaped literal is read as exactly the number it denotes when that fits an i64, and refused
      otherwise; the one negation that leaves the range is that of i64::MIN written in hexadecimal. */
  lemma IntIsExact(t: string)
    requires LooksLikeInt(t)
    ensures ParseIntLiteral(t) ==
            (if Denotes(t).Some? && -TWO_63 <= Denotes(t).value < TWO_63 then Denotes(t) else None)
  {
    var body := Body(t);
    if HexPrefixed(body) {
      var digits := body[2..];
      assert digits[0] != '+' by { assert IsHex(digits[0]); }
    } else {
      assert IsDigit(body[0]);
      if t[0] == '+' {
        assert Body(body) == body;
      }
    }
  }

  // ---- decimal printing ------------------------------------------------------------------

  function Digits(n: nat): string {
    if n < 10 then [(n + '0' as int) as char] else Digits(n / 10) + [(n % 10 + '0' as int) as char]
  }

  function Printed(i: int): string {
    if i < 0 then ['-'] + Digits(-i) else Digits(i)
  }

  lemma {:induction false} DigitsRead(n: nat)
    ensures Digits(n) != [] && AllDigits(Digits(n)) && DecValue(Digits(n)) == n
  {
    if n >= 10 {
      DigitsRead(n / 10);
      var s := Digits(n);
      assert s[..|s| - 1] == Digits(n / 10);
    } else {
      assert Digits(n)[..0] == [];
    }
  }

  // ---- floats ----------------------------------------------------------------------------

  /** Position of the first exponent letter, or the length. */
  function ExpAt(s: string): (k: nat)
    ensures k <= |s| && (forall i :: 0 <= i < k ==> s[i] != 'e' && s[i] != 'E')
    ensures k < |s| ==> s[k] == 'e' || s[k] == 'E'
  {
    if s == [] || s[0] == 'e' || s[0] == 'E' then 0 else 1 + ExpAt(s[1..])
  }

  function DotAt(s: string): (k: nat)
    ensures k <= |s| && (forall i :: 0 <= i < k ==> s[i] != '.')
    ensures k < |s| ==> s[k] == '.'
  {
    if s == [] || s[0] == '.' then 0 else 1 + DotAt(s[1..])
  }

  predicate MantissaOk(m: string) {
    var d := DotAt(m);
    if d < |m| then (d > 0 || d + 1 < |m|) && AllDigits(m[..d]) && AllDigits(m[d + 1..]) else m != [] && AllDigits(m)
  }

  predicate FloatShape(t: string) {
    var body := Body(t);
    var k := ExpAt(body);
    && MantissaOk(body[..k])
    && (k < |body| || DotAt(body) < |body|)
    && (k < |body| ==> Body(body[k + 1..]) != [] && AllDigits(Body(body[k + 1..])))
  }

  // ---- classification --------------------------------------------------------------------

  datatype Kind = KNull | KTrue | KFalse | KTime | KDate | KTimestamp | KText | KBlob | KInt | KFloat

  /** The recognisers, one by one. */
  predicate Recognises(k: Kind, t: string, finite: string -> bool) {
    match k
    case KNull => SameName(t, "NULL")
    case KTrue => SameName(t, "TRUE")
    case KFalse => SameName(t, "FALSE")
    case KTime => SameName(t, "CURRENT_TIME")
    case KDate => SameName(t, "CURRENT_DATE")
    case KTimestamp => SameName(t, "CURRENT_TIMESTAMP")
    case KText => TextValue(t).Some?
    case KBlob => BlobShape(t)
    case KInt => LooksLikeInt(t)
    case KFloat => FloatShape(t) && finite(t)
  }

  /** What a recognised literal becomes; `s` is the untrimmed source. */
  function Meaning(k: Kind, s: string, finite: string -> bool): DefaultValue
    requires Recognises(k, Trim(s), finite)
  {
    var t := Trim(s);
    match k
    case KNull => LiteralNull
    case KTrue => LiteralBool(true)
    case KFalse => LiteralBool(false)
    case KTime => Current(Time)
    case KDate => Current(Date)
    case KTimestamp => Current(Timestamp)
    case KText => LiteralText(TextValue(t).value)
    case KBlob => Blob(Pairs(BlobInner(t).value))
    case KInt => if ParseIntLiteral(t).Some? then LiteralInt(ParseIntLiteral(t).value) else Expr(s)
    case KFloat => LiteralFloat(t)
  }

  /** Try the recognisers in the given order. */
  function ClassifyIn(order: seq<Kind>, s: string, finite: string -> bool): DefaultValue {
    if order == [] then Expr(s)
    else if Recognises(order[0], Trim(s), finite) then Meaning(order[0], s, finite)
    else ClassifyIn(order[1..], s, finite)
  }

  /** The order of classify_default. */
  const SOURCE_ORDER: seq<Kind> := [KNull, KTrue, KFalse, KTime, KDate, KTimestamp, KText, KBlob, KInt, KFloat]

  /** `finite` stands for the f64 conversion's finiteness test. */
  function Classify(raw: Option<string>, finite: string -> bool): DefaultValue {
    match raw
    case None => NoDefault
    case Some(s) => ClassifyIn(SOURCE_ORDER, s, finite)
  }

  /** The first character already tells most kinds apart. */
  function Lead(c: char): nat {
    if c == '\'' then 0
    else if c == 'x' || c == 'X' then 1
    else if IsDigit(c) || c == '-' || c == '+' || c == '.' then 2
    else if Lower(c) == 'n' then 3
    else if Lower(c) == 't' then 4
    else if Lower(c) == 'f' then 5
    else 6
  }

  function LeadOf(k: Kind): nat {
    match k
    case KNull => 3
    case KTrue => 4
    case KFalse => 5
    case KTime => 6
    case KDate => 6
    case KTimestamp => 6
    case KText => 0
    case KBlob => 1
    case KInt => 2
    case KFloat => 2
  }

  lemma LeadTells(k: Kind, t: string, finite: string -> bool)
    requires Recognises(k, t, finite)
    ensures t != [] && Lead(t[0]) == LeadOf(k)
  {
    match k
    case KInt =>
      var body := Body(t);
      assert !HexPrefixed(body) ==> IsDigit(body[0]);
    case KFloat => FloatLead(t);
    case KNull => assert Lower(t[0]) == Lower("NULL"[0]);
    case KTrue => assert Lower(t[0]) == Lower("TRUE"[0]);
    case KFalse => assert Lower(t[0]) == Lower("FALSE"[0]);
    case KTime => assert Lower(t[0]) == Lower("CURRENT_TIME"[0]);
    case KDate => assert Lower(t[0]) == Lower("CURRENT_DATE"[0]);
    case KTimestamp => assert Lower(t[0]) == Lower("CURRENT_TIMESTAMP"[0]);
    case _ =>
  }

  lemma FloatLead(t: string)
    requires FloatShape(t)
    ensures t != [] && Lead(t[0]) == 2
  {
    var body := Body(t);
    var m := body[..ExpAt(body)];
    var d := DotAt(m);
    assert m != [] && m[0] == body[0];
    if d == 0 {
      assert m[0] == '.';
    } else if d < |m| {
      assert m[..d][0] == m[0];
    }
  }

  /** An integer shape has neither a dot nor a usable exponent. */
  lemma IntIsNotFloat(t: string)
    requires LooksLikeInt(t)
    ensures !FloatShape(t)
  {
    var body := Body(t);
    var k := ExpAt(body);
    if HexPrefixed(body) {
      // the x survives in front of any exponent letter, so the mantissa is not numeric
      assert forall i :: 2 <= i < |body| ==> body[i] == body[2..][i - 2];
      var m := body[..k];
      assert m[1] == body[1];
      assert DotAt(m) == |m|;
    } else {
      assert k == |body| && DotAt(body) == |body|;
    }
  }

  /** No text is recognised as two kinds at once. */
  lemma KindsAreDisjoint(a: Kind, b: Kind, t: string, finite: string -> bool)
    requires Recognises(a, t, finite) && Recognises(b, t, finite)
    ensures a == b
  {
    LeadTells(a, t, finite);
    LeadTells(b, t, finite);
    if LooksLikeInt(t) {
      IntIsNotFloat(t);
    }
    if SameName(t, "CURRENT_TIME") {
      assert Lower(t[8]) == Lower("CURRENT_TIME"[8]) == 't';
      assert |t| == 12;
    }
    if SameName(t, "CURRENT_DATE") {
      assert Lower(t[8]) == Lower("CURRENT_DATE"[8]) == 'd';
      assert |t| == 12;
    }
  }

  lemma {:induction false} OrderHelper(order: seq<Kind>, s: string, finite: string -> bool, k: Kind)
    requires k in order && Recognises(k, Trim(s), finite)
    ensures ClassifyIn(order, s, finite) == Meaning(k, s, finite)
    decreases |order|
  {
    if Recognises(order[0], Trim(s), finite) {
      KindsAreDisjoint(order[0], k, Trim(s), finite);
    } else {
      OrderHelper(order[1..], s, finite, k);
    }
  }

  lemma {:induction false} NoneRecognised(order: seq<Kind>, s: string, finite: string -> bool)
    requires forall k :: !Recognises(k, Trim(s), finite)
    ensures ClassifyIn(order, s, finite) == Expr(s)
    decreases |order|
  {
    if order != [] {
      NoneRecognised(order[1..], s, finite);
    }
  }

  lemma AllListed(k: Kind)
    ensures k in SOURCE_ORDER
  {
    assert SOURCE_ORDER[0] == KNull && SOURCE_ORDER[1] == KTrue && SOURCE_ORDER[2] == KFalse && SOURCE_ORDER[3] == KTime
        && SOURCE_ORDER[4] == KDate && SOURCE_ORDER[5] == KTimestamp && SOURCE_ORDER[6] == KText && SOURCE_ORDER[7] == KBlob
        && SOURCE_ORDER[8] == KInt && SOURCE_ORDER[9] == KFloat;
  }

  lemma RecognisedClassifies(s: string, finite: string -> bool, k: Kind)
    requires Recognises(k, Trim(s), finite)
    ensures Classify(Some(s), finite) == Meaning(k, s, finite)
  {
    AllListed(k);
    OrderHelper(SOURCE_ORDER, s, finite, k);
  }

  /** The order of the tests does not matter: any order that tries every kind classifies every text alike. */
  lemma OrderIsIrrelevant(order: seq<Kind>, s: string, finite: string -> bool)
    requires forall k: Kind :: k in order
    ensures ClassifyIn(order, s, finite) == Classify(Some(s), finite)
  {
    if k :| Recognises(k, Trim(s), finite) {
      OrderHelper(order, s, finite, k);
      RecognisedClassifies(s, finite, k);
    } else {
      NoneRecognised(order, s, finite);
      NoneRecognised(SOURCE_ORDER, s, finite);
    }
  }

  // ---- round trips through the classifier ------------------------------------------------

  /** Whatever string is printed for a PRAGMA, reading it as a DEFAULT gives that string back. */
  lemma PrintedTextClassifies(s: string, finite: string -> bool)
    ensures Classify(Some(Quoted('\'', s)), finite) == LiteralText(s)
  {
    var t := Quoted('\'', s);
    assert Trim(t) == t;
    TextIff(t, s);
    RecognisedClassifies(t, finite, KText);
  }

  /** Any bytes, spelt in any mixture of letter cases after either x or X, classify as exactly those bytes. */
  lemma SpeltBlobClassifies(bytes: seq<Byte>, hex: string, x: char, finite: string -> bool)
    requires Spells(hex, bytes) && (x == 'x' || x == 'X')
    ensures Classify(Some([x] + ['\''] + hex + ['\'']), finite) == Blob(bytes)
  {
    var t := [x] + ['\''] + hex + ['\''];
    assert Trim(t) == t;
    assert t[1..] == ['\''] + hex + ['\''];
    assert t[1..][1..|t[1..]| - 1] == hex;
    SpellsIff(hex, bytes);
    RecognisedClassifies(t, finite, KBlob);
  }

  lemma PrintedBlobClassifies(bytes: seq<Byte>, upper: bool, finite: string -> bool)
    ensures Classify(Some(['x'] + ['\''] + HexText(bytes, upper) + ['\'']), finite) == Blob(bytes)
  {
    SpeltBlobClassifies(bytes, HexText(bytes, upper), 'x', finite);
  }

  /** Every integer-shaped default becomes the exact integer when it fits, and stays verbatim otherwise: it is
      never turned into a float. */
  lemma IntClassifies(s: string, finite: string -> bool)
    requires LooksLikeInt(Trim(s))
    ensures Classify(Some(s), finite) ==
            (var d := Denotes(Trim(s)); if d.Some? && -TWO_63 <= d.value < TWO_63 then LiteralInt(d.value) else Expr(s))
  {
    IntIsExact(Trim(s));
    RecognisedClassifies(s, finite, KInt);
  }

  /** What a printed integer looks like to the classifier. */
  lemma PrintedShape(i: int)
    ensures var t, body := Printed(i), Digits(if i < 0 then -i else i);
            && |body| > 0 && (forall k :: 0 <= k < |body| ==> IsDigit(body[k]))
            && t == (if i < 0 then "-" else "") + body
  {
    DigitsRead(if i < 0 then -i else i);
  }

  lemma PrintedIsTrim(i: int)
    ensures Trim(Printed(i)) == Printed(i)
  {
    PrintedShape(i);
    var t, body := Printed(i), Digits(if i < 0 then -i else i);
    assert t[|t| - 1] == body[|body| - 1];
  }

  lemma PrintedDenotes(i: int)
    ensures LooksLikeInt(Printed(i)) && Denotes(Printed(i)) == Some(i)
  {
    PrintedShape(i);
    var n := if i < 0 then -i else i;
    DigitsRead(n);
    assert Body(Printed(i)) == Digits(n);
    assert !HexPrefixed(Digits(n)) by { if |Digits(n)| >= 2 { assert IsDigit(Digits(n)[1]); } }
  }

  /** Printing any i64 and classifying it is the identity, i64::MIN included. */
  lemma PrintedIntClassifies(i: int, finite: string -> bool)
    requires -TWO_63 <= i < TWO_63
    ensures Classify(Some(Printed(i)), finite) == LiteralInt(i)
  {
    PrintedIsTrim(i);
    PrintedDenotes(i);
    IntClassifies(Printed(i), finite);
  }
}

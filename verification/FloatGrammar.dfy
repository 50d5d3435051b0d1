/** The float shape test against the numeric grammar it stands for, and what trimming leaves. */
module FloatGrammar {
  import opened Literals

  datatype Exponent = NoExponent | Exponent(letter: char, sign: string, digits: string)

  /** The pieces of a numeric literal with a decimal point, an exponent, or both. */
  datatype Float = Float(sign: string, whole: string, dot: bool, frac: string, exponent: Exponent)

  predicate IsSign(s: string) { s == "" || s == "-" || s == "+" }

  predicate WellFormed(f: Float) {
    && IsSign(f.sign)
    && AllDigits(f.whole) && AllDigits(f.frac)
    && (f.whole != [] || f.frac != [])
    && (f.frac != [] ==> f.dot)
    && (f.dot || f.exponent.Exponent?)
    && match f.exponent
       case NoExponent => true
       case Exponent(letter, sign, digits) => (letter == 'e' || letter == 'E') && IsSign(sign) && digits != [] && AllDigits(digits)
  }

  function Mantissa(f: Float): string {
    if f.dot then f.whole + "." + f.frac else f.whole
  }

  function ExponentText(x: Exponent): string {
    match x
    case NoExponent => ""
    case Exponent(letter, sign, digits) => [letter] + (sign + digits)
  }

  function Spelling(f: Float): string {
    f.sign + (Mantissa(f) + ExponentText(f.exponent))
  }

  lemma BodyOf(sign: string, rest: string)
    requires IsSign(sign) && rest != [] && rest[0] != '-' && rest[0] != '+'
    ensures Body(sign + rest) == rest
  {
  }

  lemma MantissaReads(f: Float)
    requires WellFormed(f)
    ensures Mantissa(f) != [] && MantissaOk(Mantissa(f))
    ensures forall i :: 0 <= i < |Mantissa(f)| ==> IsDigit(Mantissa(f)[i]) || Mantissa(f)[i] == '.'
    ensures '.' in Mantissa(f) <==> f.dot
  {
    var m := Mantissa(f);
    if f.dot {
      assert m[|f.whole|] == '.';
      assert DotAt(m) == |f.whole|;
      assert m[..|f.whole|] == f.whole && m[|f.whole| + 1..] == f.frac;
    }
  }

  lemma ExponentReads(x: Exponent)
    requires x.Exponent? && IsSign(x.sign) && x.digits != [] && AllDigits(x.digits)
    ensures Body(ExponentText(x)[1..]) == x.digits
  {
    BodyOf(x.sign, x.digits);
    assert ExponentText(x)[1..] == x.sign + x.digits;
  }

  predicate NoLetter(m: string) { 'e' !in m && 'E' !in m }

  /** The exponent part of a literal: nothing, or a letter and what follows it. */
  predicate Tail(x: string) { x == [] || x[0] == 'e' || x[0] == 'E' }

  lemma ExpBehind(m: string, x: string)
    requires NoLetter(m) && Tail(x)
    ensures ExpAt(m + x) == |m|
  {
    var body := m + x;
    assert x != [] ==> body[|m|] == x[0];
    assert forall i :: 0 <= i < |m| ==> body[i] == m[i] && body[i] != 'e' && body[i] != 'E';
  }

  lemma DotFound(m: string)
    ensures DotAt(m) < |m| <==> '.' in m
  {
  }

  /** The test, piece by piece. */
  lemma ShapeIs(t: string, m: string, x: string)
    requires Body(t) == m + x && NoLetter(m) && Tail(x)
    ensures FloatShape(t) <==>
            && MantissaOk(m)
            && (x == [] ==> '.' in m)
            && (x != [] ==> Body(x[1..]) != [] && AllDigits(Body(x[1..])))
  {
    ExpBehind(m, x);
    var body := m + x;
    assert body[..|m|] == m;
    if x == [] {
      assert body == m;
      DotFound(m);
    } else {
      assert body[|m| + 1..] == x[1..];
    }
  }

  /** Every spelling is accepted ... */
  lemma SpellingIsAccepted(f: Float)
    requires WellFormed(f)
    ensures FloatShape(Spelling(f))
  {
    MantissaReads(f);
    var m, x := Mantissa(f), ExponentText(f.exponent);
    assert (m + x)[0] == m[0];
    BodyOf(f.sign, m + x);
    if f.exponent.Exponent? { ExponentReads(f.exponent); }
    ShapeIs(Spelling(f), m, x);
  }

  function SignOf(t: string): string {
    if t != [] && (t[0] == '-' || t[0] == '+') then [t[0]] else ""
  }

  lemma SignAndBody(t: string)
    ensures t == SignOf(t) + Body(t) && IsSign(SignOf(t))
  {
  }

  lemma MantissaParts(m: string) returns (whole: string, dot: bool, frac: string)
    requires MantissaOk(m)
    ensures AllDigits(whole) && AllDigits(frac) && (whole != [] || frac != []) && (frac != [] ==> dot)
    ensures m == if dot then whole + "." + frac else whole
    ensures '.' in m ==> dot
  {
    var d := DotAt(m);
    if d < |m| {
      whole, dot, frac := m[..d], true, m[d + 1..];
    } else {
      whole, dot, frac := m, false, "";
    }
  }

  lemma ExponentParts(x: string) returns (exponent: Exponent)
    requires Tail(x) && (x != [] ==> Body(x[1..]) != [] && AllDigits(Body(x[1..])))
    ensures ExponentText(exponent) == x && (x != [] <==> exponent.Exponent?)
    ensures exponent.Exponent? ==>
              && (exponent.letter == 'e' || exponent.letter == 'E') && IsSign(exponent.sign)
              && exponent.digits != [] && AllDigits(exponent.digits)
  {
    if x == [] {
      exponent := NoExponent;
    } else {
      SignAndBody(x[1..]);
      exponent := Exponent(x[0], SignOf(x[1..]), Body(x[1..]));
      assert x == [x[0]] + x[1..];
    }
  }

  /** ... and whatever is accepted is the spelling of its pieces. */
  lemma AcceptedIsSpelling(t: string) returns (f: Float)
    requires FloatShape(t)
    ensures WellFormed(f) && Spelling(f) == t
  {
    var k := ExpAt(Body(t));
    var m, x := Body(t)[..k], Body(t)[k..];
    assert m + x == Body(t);
    ShapeIs(t, m, x);
    var whole, dot, frac := MantissaParts(m);
    var exponent := ExponentParts(x);
    f := Float(SignOf(t), whole, dot, frac, exponent);
    SignAndBody(t);
  }

  /** The hand-written test decides exactly the grammar: digits with a point, on either side of which digits
      may be missing but not on both, and/or an exponent. */
  lemma FloatShapeIff(t: string)
    ensures FloatShape(t) <==> exists f :: WellFormed(f) && Spelling(f) == t
  {
    if FloatShape(t) {
      var f := AcceptedIsSpelling(t);
    }
    if f :| WellFormed(f) && Spelling(f) == t {
      SpellingIsAccepted(f);
    }
  }

  ghost predicate AllWhite(s: string) { forall i :: 0 <= i < |s| ==> IsWhite(s[i]) }

  /** Trimming removes white space from both ends and nothing else, until neither end is white. */
  lemma {:induction false} TrimIsTheCore(s: string) returns (front: string, back: string)
    ensures s == front + Trim(s) + back && AllWhite(front) && AllWhite(back)
    ensures Trim(s) != [] ==> !IsWhite(Trim(s)[0]) && !IsWhite(Trim(s)[|Trim(s)| - 1])
    decreases |s|
  {
    front, back := "", "";
    if s != [] {
      var core := Trim(s);
      if IsWhite(s[0]) {
        var f;
        f, back := TrimIsTheCore(s[1..]);
        front := [s[0]] + f;
        assert s == [s[0]] + s[1..];
      } else if IsWhite(s[|s| - 1]) {
        var b;
        front, b := TrimIsTheCore(s[..|s| - 1]);
        back := b + [s[|s| - 1]];
        assert s == s[..|s| - 1] + [s[|s| - 1]];
      }
    }
  }
}

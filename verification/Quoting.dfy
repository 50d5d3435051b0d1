/** SQL quoting: what the pragma string printer and quote_identifier write, and how it is read back. */
module Quoting {
  import opened Common

  /** `s.replace(q, qq)`. */
  function Doubled(q: char, s: string): string {
    if s == [] then [] else (if s[0] == q then [q, q] else [s[0]]) + Doubled(q, s[1..])
  }

  /** The quoting arm of format_term_for_pragma (q is ') and quote_identifier (q is "). */
  function Quoted(q: char, s: string): string {
    [q] + Doubled(q, s) + [q]
  }

  /** Undoing the doubling; a lone quote has no reading. */
  function Undoubled(q: char, t: string): Option<string> {
    if t == [] then Some([])
    else if t[0] == q then
      if |t| >= 2 && t[1] == q then Prepend([q], Undoubled(q, t[2..])) else None
    else Prepend([t[0]], Undoubled(q, t[1..]))
  }

  function Prepend(head: string, rest: Option<string>): Option<string> {
    match rest
    case None => None
    case Some(s) => Some(head + s)
  }

  lemma {:induction false} UndoubleDoubled(q: char, s: string)
    ensures Undoubled(q, Doubled(q, s)) == Some(s)
  {
    if s != [] {
      UndoubleDoubled(q, s[1..]);
      var head := if s[0] == q then [q, q] else [s[0]];
      assert Doubled(q, s)[|head|..] == Doubled(q, s[1..]);
      assert s == [s[0]] + s[1..];
    }
  }

  lemma {:induction false} DoubleUndoubled(q: char, t: string, s: string)
    requires Undoubled(q, t) == Some(s)
    ensures t == Doubled(q, s)
    decreases |t|
  {
    if t != [] {
      var step := if t[0] == q then 2 else 1;
      var rest := Undoubled(q, t[step..]).value;
      DoubleUndoubled(q, t[step..], rest);
      assert s == [t[0]] + rest && s[1..] == rest;
      assert t == t[..step] + t[step..];
    }
  }

  /** Where the token that starts with the quote at `text[0]` ends, as SQLite's tokenizer scans it: `i` is past
      the opening quote, a doubled quote continues, a single one closes. */
  function TokenEnd(q: char, text: string, i: nat): Option<nat>
    requires i <= |text|
    decreases |text| - i
  {
    if i == |text| then None
    else if text[i] != q then TokenEnd(q, text, i + 1)
    else if i + 1 < |text| && text[i + 1] == q then TokenEnd(q, text, i + 2)
    else Some(i + 1)
  }

  lemma {:induction false} ScanDoubled(q: char, before: string, s: string, rest: string)
    requires rest == [] || rest[0] != q
    ensures var text := before + Doubled(q, s) + [q] + rest;
            TokenEnd(q, text, |before|) == Some(|before| + |Doubled(q, s)| + 1)
    decreases |s|
  {
    var text := before + Doubled(q, s) + [q] + rest;
    if s == [] {
      assert text[|before|] == q;
      assert rest != [] ==> text[|before| + 1] == rest[0];
    } else {
      var head := if s[0] == q then [q, q] else [s[0]];
      ScanDoubled(q, before + head, s[1..], rest);
      assert text == (before + head) + Doubled(q, s[1..]) + [q] + rest;
      assert text[|before|] == head[0];
      assert s[0] == q ==> text[|before| + 1] == q;
    }
  }

  /** A quoted value is one token in any SQL text that does not continue with the same quote: whatever the value
      contains, the tokenizer stops exactly at the closing quote. */
  lemma QuotedIsOneToken(q: char, s: string, rest: string)
    requires rest == [] || rest[0] != q
    ensures TokenEnd(q, Quoted(q, s) + rest, 1) == Some(|Quoted(q, s)|)
  {
    ScanDoubled(q, [q], s, rest);
    assert Quoted(q, s) + rest == [q] + Doubled(q, s) + [q] + rest;
  }

  /** Different values never print the same. */
  lemma QuotedIsInjective(q: char, a: string, b: string)
    requires Quoted(q, a) == Quoted(q, b)
    ensures a == b
  {
    var x, y := Quoted(q, a), Quoted(q, b);
    assert x[1..|x| - 1] == Doubled(q, a) && y[1..|y| - 1] == Doubled(q, b);
    UndoubleDoubled(q, a);
    UndoubleDoubled(q, b);
  }
}

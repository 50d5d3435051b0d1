/** `str::split_once`, `str::split` and their inverse. Both look for the leftmost match first and never let
    two matches overlap. */
module Splitting {
  import opened Common

  ghost predicate Occurs(s: string, pat: string) {
    exists i: nat :: i <= |s| && pat <= s[i..]
  }

  function SplitOnce(s: string, pat: string): Option<(string, string)> {
    if pat <= s then Some(([], s[|pat|..]))
    else if s == [] then None
    else match SplitOnce(s[1..], pat)
      case None => None
      case Some(found) => Some(([s[0]] + found.0, found.1))
  }

  function Prepend(c: char, parts: seq<string>): seq<string>
    requires parts != []
  {
    [[c] + parts[0]] + parts[1..]
  }

  function Split(s: string, pat: string): (parts: seq<string>)
    requires |pat| > 0
    ensures parts != []
    decreases |s|
  {
    if s == [] then [[]]
    else if pat <= s then [[]] + Split(s[|pat|..], pat)
    else Prepend(s[0], Split(s[1..], pat))
  }

  function Join(parts: seq<string>, pat: string): string {
    if parts == [] then [] else if |parts| == 1 then parts[0] else parts[0] + pat + Join(parts[1..], pat)
  }

  lemma JoinPrepend(c: char, parts: seq<string>, pat: string)
    requires parts != []
    ensures Join(Prepend(c, parts), pat) == [c] + Join(parts, pat)
  {
    assert Prepend(c, parts)[1..] == parts[1..];
    if |parts| > 1 {
      var rest := Join(parts[1..], pat);
      assert [c] + parts[0] + pat + rest == [c] + (parts[0] + pat + rest);
    }
  }

  lemma JoinCut(parts: seq<string>, pat: string)
    requires parts != []
    ensures Join([[]] + parts, pat) == pat + Join(parts, pat)
  {
    assert ([[]] + parts)[1..] == parts;
  }

  /** Splitting loses nothing: joining the parts restores the text. */
  lemma {:induction false} JoinSplit(s: string, pat: string)
    requires |pat| > 0
    ensures Join(Split(s, pat), pat) == s
    decreases |s|
  {
    if s == [] {
    } else if pat <= s {
      JoinSplit(s[|pat|..], pat);
      JoinCut(Split(s[|pat|..], pat), pat);
    } else {
      JoinSplit(s[1..], pat);
      JoinPrepend(s[0], Split(s[1..], pat), pat);
    }
  }

  lemma OccursBehind(s: string, pat: string)
    requires s != [] && !(pat <= s)
    ensures Occurs(s, pat) <==> Occurs(s[1..], pat)
  {
    var rest := s[1..];
    if Occurs(s, pat) {
      var i: nat :| i <= |s| && pat <= s[i..];
      assert i > 0 by { assert s[0..] == s; }
      assert rest[i - 1..] == s[i..];
    }
    if Occurs(rest, pat) {
      var i: nat :| i <= |rest| && pat <= rest[i..];
      assert s[i + 1..] == rest[i..];
    }
  }

  lemma {:induction false} CutIffOccurs(s: string, pat: string)
    ensures SplitOnce(s, pat).None? <==> !Occurs(s, pat)
  {
    if pat <= s {
      assert s[0..] == s;
    } else if s != [] {
      CutIffOccurs(s[1..], pat);
      OccursBehind(s, pat);
    }
  }

  lemma {:induction false} CutIsFirst(s: string, pat: string)
    requires SplitOnce(s, pat).Some?
    ensures var (head, tail) := SplitOnce(s, pat).value;
            && s == head + pat + tail
            && forall i: nat :: i < |head| ==> !(pat <= s[i..])
  {
    if !(pat <= s) {
      var rest := s[1..];
      CutIsFirst(rest, pat);
      assert s[0..] == s;
      assert forall i: nat :: 1 <= i <= |s| ==> s[i..] == rest[i - 1..];
    }
  }

  /** A cut is at the first match: the text is restored around it, and nothing matches earlier. */
  lemma SplitOnceIsFirst(s: string, pat: string)
    ensures SplitOnce(s, pat).None? <==> !Occurs(s, pat)
    ensures SplitOnce(s, pat).Some? ==>
      var (head, tail) := SplitOnce(s, pat).value;
      && s == head + pat + tail
      && forall i: nat :: i < |head| ==> !(pat <= s[i..])
  {
    CutIffOccurs(s, pat);
    if SplitOnce(s, pat).Some? { CutIsFirst(s, pat); }
  }

  /** A separator that starts with a character the first piece lacks is found right behind that piece. */
  lemma {:induction false} SplitOnceBehind(x: string, pat: string, y: string)
    requires |pat| > 0 && pat[0] !in x
    ensures SplitOnce(x + pat + y, pat) == Some((x, y))
  {
    var s := x + pat + y;
    if x == [] {
      assert s == pat + y;
    } else {
      assert s[0] == x[0];
      assert s[1..] == x[1..] + pat + y;
      SplitOnceBehind(x[1..], pat, y);
      assert [x[0]] + x[1..] == x;
    }
  }

  lemma {:induction false} NoCut(s: string, pat: string)
    requires |pat| > 0 && pat[0] !in s
    ensures SplitOnce(s, pat).None?
  {
    if s != [] { NoCut(s[1..], pat); }
  }

  /** Whatever follows any match follows the first one too. */
  lemma {:induction false} CutKeepsTheRest(x: string, pat: string, y: string)
    ensures var cut := SplitOnce(x + pat + y, pat);
            cut.Some? && exists n: nat :: n <= |cut.value.1| && cut.value.1[n..] == y
  {
    var s := x + pat + y;
    if pat <= s {
      assert s[|pat|..][|x|..] == y;
    } else {
      assert x == [] ==> s == pat + y;
      assert s[1..] == x[1..] + pat + y;
      CutKeepsTheRest(x[1..], pat, y);
    }
  }

  lemma OccursLater(s: string, n: nat, pat: string)
    requires n <= |s| && Occurs(s[n..], pat)
    ensures Occurs(s, pat)
  {
    var i: nat :| i <= |s| - n && pat <= s[n..][i..];
    assert s[n..][i..] == s[n + i..];
  }

  /** Cutting at `p` and then at `q` succeeds as soon as some `q` stands behind some `p`. */
  lemma CutTwice(x: string, p: string, y: string, q: string, z: string)
    ensures var cut := SplitOnce(x + p + (y + q + z), p);
            cut.Some? && SplitOnce(cut.value.1, q).Some?
  {
    var behind := y + q + z;
    CutKeepsTheRest(x, p, behind);
    var tail := SplitOnce(x + p + behind, p).value.1;
    var n: nat :| n <= |tail| && tail[n..] == behind;
    CutKeepsTheRest(y, q, z);
    SplitOnceIsFirst(behind, q);
    OccursLater(tail, n, q);
    SplitOnceIsFirst(tail, q);
  }

  const COMMA: string := ", "

  /** Splitting at ", " distributes over a seam made of ", ", whatever the pieces contain: a match across the
      seam would need its comma to be a space. */
  lemma {:induction false} SplitSeam(x: string, y: string)
    ensures Split(x + COMMA + y, COMMA) == Split(x, COMMA) + Split(y, COMMA)
    decreases |x|
  {
    var s := x + COMMA + y;
    if x == [] {
      assert s == COMMA + y;
    } else if COMMA <= x {
      var rest := x[2..];
      assert s[2..] == rest + COMMA + y;
      SplitSeam(rest, y);
    } else {
      assert !(COMMA <= s) by { assert s[1] == if |x| > 1 then x[1] else ','; }
      assert s[1..] == x[1..] + COMMA + y;
      SplitSeam(x[1..], y);
      var xs, ys := Split(x[1..], COMMA), Split(y, COMMA);
      assert Prepend(x[0], xs + ys) == Prepend(x[0], xs) + ys;
    }
  }

  /** One part exactly when there is no separator inside. */
  lemma {:induction false} OnePart(s: string, pat: string)
    requires |pat| > 0
    ensures |Split(s, pat)| == 1 <==> !Occurs(s, pat)
    ensures |Split(s, pat)| == 1 ==> Split(s, pat) == [s]
    decreases |s|
  {
    JoinSplit(s, pat);
    assert s[0..] == s;
    if s == [] {
    } else if pat <= s {
      assert |Split(s[|pat|..], pat)| > 0;
    } else {
      var rest := s[1..];
      OnePart(rest, pat);
      assert forall i: nat :: 1 <= i <= |s| ==> s[i..] == rest[i - 1..];
      assert forall i: nat :: i <= |rest| ==> rest[i..] == s[i + 1..];
    }
  }

  /** Splitting what was joined gives the parts back if, and only if, no part contains the separator; and a
      count that matches is enough to know it. */
  lemma {:induction false} SplitJoin(parts: seq<string>)
    requires parts != []
    ensures |Split(Join(parts, COMMA), COMMA)| >= |parts|
    ensures |Split(Join(parts, COMMA), COMMA)| == |parts| <==> (forall i :: 0 <= i < |parts| ==> !Occurs(parts[i], COMMA))
    ensures |Split(Join(parts, COMMA), COMMA)| == |parts| ==> Split(Join(parts, COMMA), COMMA) == parts
    decreases |parts|
  {
    OnePart(parts[0], COMMA);
    if |parts| > 1 {
      var rest := parts[1..];
      SplitJoin(rest);
      SplitSeam(parts[0], Join(rest, COMMA));
      assert forall i :: 1 <= i < |parts| ==> parts[i] == rest[i - 1];
      assert forall i :: 0 <= i < |rest| ==> rest[i] == parts[i + 1];
      assert parts == [parts[0]] + rest;
    }
  }
}

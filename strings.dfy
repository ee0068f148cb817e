/**
 * The Java string operations the engine relies on, written out over `seq<char>`:
 * ASCII case folding, `String.trim`, splitting on a single character, joining,
 * the engine's `explode`/`implode` helpers, decimal rendering of integers and
 * literal `String.replace`.
 */
module Strings {

  // ---------------------------------------------------------------- case

  predicate IsUpperAscii(c: char) { 'A' <= c <= 'Z' }

  /** `Character.toLowerCase`, restricted to ASCII letters. */
  function LowerChar(c: char): (r: char)
    ensures IsUpperAscii(c) ==> r as int == c as int + 32
    ensures !IsUpperAscii(c) ==> r == c
    ensures !IsUpperAscii(r)
  {
    if IsUpperAscii(c) then (c as int + 32) as char else c
  }

  /** `String.toLowerCase`, restricted to ASCII letters. */
  function Lower(s: string): (r: string)
    ensures |r| == |s|
  {
    if s == [] then [] else [LowerChar(s[0])] + Lower(s[1..])
  }

  lemma {:induction false} LowerAt(s: string, i: int)
    requires 0 <= i < |s|
    ensures Lower(s)[i] == LowerChar(s[i])
  {
    if i > 0 {
      LowerAt(s[1..], i - 1);
    }
  }

  /** `String.equalsIgnoreCase`, restricted to ASCII letters. */
  predicate EqualsIgnoreCase(a: string, b: string) { Lower(a) == Lower(b) }

  lemma {:induction false} LowerIdempotent(s: string)
    ensures Lower(Lower(s)) == Lower(s)
  {
    if s != [] {
      LowerIdempotent(s[1..]);
    }
  }

  lemma {:induction false} LowerConcat(a: string, b: string)
    ensures Lower(a + b) == Lower(a) + Lower(b)
  {
    if a != [] {
      assert (a + b)[1..] == a[1..] + b;
      LowerConcat(a[1..], b);
    } else {
      assert a + b == b;
    }
  }

  // ---------------------------------------------------------------- trim

  /** The characters `String.trim` removes: everything up to and including the space. */
  predicate IsWhite(c: char) { c <= ' ' }

  function TrimStart(s: string): (r: string)
    ensures |r| <= |s| && r == s[|s| - |r|..]
    ensures forall i :: 0 <= i < |s| - |r| ==> IsWhite(s[i])
    ensures r == [] || !IsWhite(r[0])
  {
    if |s| > 0 && IsWhite(s[0]) then TrimStart(s[1..]) else s
  }

  function TrimEnd(s: string): (r: string)
    ensures |r| <= |s| && r == s[..|r|]
    ensures forall i :: |r| <= i < |s| ==> IsWhite(s[i])
    ensures r == [] || !IsWhite(r[|r| - 1])
  {
    if |s| > 0 && IsWhite(s[|s| - 1]) then TrimEnd(s[..|s| - 1]) else s
  }

  predicate IsTrimmed(s: string) { s == [] || (!IsWhite(s[0]) && !IsWhite(s[|s| - 1])) }

  /** `String.trim`: drops the white characters at both ends and keeps the middle. */
  function Trim(s: string): (r: string)
    ensures IsTrimmed(r)
    ensures |r| <= |s|
  {
    TrimEnd(TrimStart(s))
  }

  lemma TrimOfTrimmed(s: string)
    requires IsTrimmed(s)
    ensures Trim(s) == s
  {
  }

  // ---------------------------------------------------------------- search

  /** Index of the first `c` in `s`, or -1 (`String.indexOf(char)`). */
  function IndexOfChar(s: string, c: char): (r: int)
    ensures -1 <= r < |s|
    ensures r == -1 <==> c !in s
    ensures r >= 0 ==> s[r] == c && c !in s[..r]
  {
    if |s| == 0 then -1
    else if s[0] == c then 0
    else
      var k := IndexOfChar(s[1..], c);
      if k < 0 then -1
      else
        assert s[..k + 1] == [s[0]] + s[1..][..k];
        k + 1
  }

  /** Index of the last `c` in `s`, or -1 (`String.lastIndexOf(char)`). */
  function LastIndexOfChar(s: string, c: char): (r: int)
    ensures -1 <= r < |s|
    ensures r == -1 <==> c !in s
    ensures r >= 0 ==> s[r] == c && c !in s[r + 1..]
  {
    if |s| == 0 then -1
    else if s[|s| - 1] == c then |s| - 1
    else
      var init, last := s[..|s| - 1], s[|s| - 1];
      var k := LastIndexOfChar(init, c);
      assert s == init + [last];
      if k < 0 then
        assert c !in init && c != last;
        -1
      else
        assert s[k] == init[k];
        assert s[k + 1..] == init[k + 1..] + [last];
        k
  }

  predicate StartsWith(s: string, prefix: string) { |prefix| <= |s| && s[..|prefix|] == prefix }

  lemma StartsWithAppend(s: string, prefix: string, more: string)
    requires StartsWith(s, prefix)
    ensures StartsWith(s + more, prefix)
  {
    assert (s + more)[..|prefix|] == s[..|prefix|];
  }

  predicate OccursAt(s: string, pat: string, i: int) { 0 <= i && i + |pat| <= |s| && s[i..i + |pat|] == pat }

  /** `String.contains`. */
  predicate Contains(s: string, pat: string) { exists i :: 0 <= i <= |s| && OccursAt(s, pat, i) }

  // ---------------------------------------------------------------- join and split

  /** Joins the parts with the separator between consecutive parts. */
  function Join(sep: string, xs: seq<string>): string
  {
    if |xs| == 0 then ""
    else if |xs| == 1 then xs[0]
    else xs[0] + sep + Join(sep, xs[1..])
  }

  lemma {:induction false} JoinSnoc(sep: string, xs: seq<string>, y: string)
    requires |xs| >= 1
    ensures Join(sep, xs + [y]) == Join(sep, xs) + sep + y
    decreases |xs|
  {
    if |xs| == 1 {
      assert (xs + [y])[1..] == [y];
    } else {
      assert (xs + [y])[1..] == xs[1..] + [y];
      JoinSnoc(sep, xs[1..], y);
    }
  }

  lemma JoinStartsWithFirst(sep: string, xs: seq<string>)
    requires |xs| >= 1
    ensures |Join(sep, xs)| >= |xs[0]|
  {
  }

  lemma {:induction false} LastIndexOfCharSnoc(a: string, c: char, y: string)
    requires c !in y
    ensures LastIndexOfChar(a + [c] + y, c) == |a|
    decreases |y|
  {
    var s := a + [c] + y;
    if |y| > 0 {
      assert s[..|s| - 1] == a + [c] + y[..|y| - 1];
      assert y[|y| - 1] in y;
      LastIndexOfCharSnoc(a, c, y[..|y| - 1]);
    }
  }

  /** Splits on every `c`, keeping empty pieces (Java's `split` with a negative limit). */
  function SplitOn(s: string, c: char): (r: seq<string>)
    ensures |r| >= 1
    ensures forall i :: 0 <= i < |r| ==> c !in r[i]
    ensures Join([c], r) == s
    decreases |s|
  {
    var i := IndexOfChar(s, c);
    if i < 0 then [s]
    else
      var rest := SplitOn(s[i + 1..], c);
      assert s == s[..i] + [c] + s[i + 1..];
      [s[..i]] + rest
  }

  lemma {:induction false} SplitOnJoin(xs: seq<string>, c: char)
    requires |xs| >= 1
    requires forall i :: 0 <= i < |xs| ==> c !in xs[i]
    ensures SplitOn(Join([c], xs), c) == xs
    decreases |xs|
  {
    if |xs| > 1 {
      var s := Join([c], xs);
      assert s == xs[0] + [c] + Join([c], xs[1..]);
      SplitOnFirst(xs[0], c, Join([c], xs[1..]));
      SplitOnJoin(xs[1..], c);
      assert xs == [xs[0]] + xs[1..];
    } else {
      assert Join([c], xs) == xs[0];
    }
  }

  lemma SplitOnFirst(x: string, c: char, rest: string)
    requires c !in x
    ensures SplitOn(x + [c] + rest, c) == [x] + SplitOn(rest, c)
  {
    var s := x + [c] + rest;
    assert s[..|x|] == x;
    assert IndexOfChar(s, c) == |x| by {
      assert s[|x|] == c;
    }
    assert s[|x| + 1..] == rest;
  }

  /** Java's `String.split` on a single character: empty pieces at the end are dropped. */
  function JavaSplit(s: string, c: char): (r: seq<string>)
    ensures forall i :: 0 <= i < |r| ==> c !in r[i]
  {
    if s == [] then [""] else DropTrailingEmpty(SplitOn(s, c))
  }

  function DropTrailingEmpty(xs: seq<string>): (r: seq<string>)
    ensures |r| <= |xs| && r == xs[..|r|]
    ensures r == [] || r[|r| - 1] != ""
    ensures forall i :: |r| <= i < |xs| ==> xs[i] == ""
  {
    if |xs| > 0 && xs[|xs| - 1] == "" then DropTrailingEmpty(xs[..|xs| - 1]) else xs
  }

  lemma JavaSplitJoin(xs: seq<string>, c: char)
    requires |xs| >= 1 && xs[|xs| - 1] != ""
    requires forall i :: 0 <= i < |xs| ==> c !in xs[i]
    ensures JavaSplit(Join([c], xs), c) == xs
  {
    SplitOnJoin(xs, c);
  }

  /** The trimmed, non-empty pieces, in order. */
  function CleanPieces(ps: seq<string>): (r: seq<string>)
    ensures forall i :: 0 <= i < |r| ==> r[i] != "" && IsTrimmed(r[i])
    ensures |r| <= |ps|
  {
    if |ps| == 0 then []
    else
      var t := Trim(ps[0]);
      var rest := CleanPieces(ps[1..]);
      if t == "" then rest
      else
        assert forall i :: 0 < i < |rest| + 1 ==> ([t] + rest)[i] == rest[i - 1];
        [t] + rest
  }

  /**
   * The engine's `Utils.explode(delim, s)`: split on the delimiter, trim each piece
   * and drop the pieces that are empty.
   */
  function Explode(s: string, c: char): (r: seq<string>)
    ensures forall i :: 0 <= i < |r| ==> r[i] != "" && IsTrimmed(r[i])
  {
    CleanPieces(SplitOn(s, c))
  }

  /** A string holding a character `trim` keeps does not trim to nothing. */
  lemma TrimNonWhite(x: string, d: char)
    requires d in x && !IsWhite(d)
    ensures Trim(x) != ""
  {
  }

  /** A character other than the delimiter that `trim` keeps leaves at least one piece. */
  lemma {:induction false} ExplodeNonWhite(s: string, c: char, d: char)
    requires d in s && d != c && !IsWhite(d)
    ensures Explode(s, c) != []
    decreases |s|
  {
    var i := IndexOfChar(s, c);
    if i < 0 {
      TrimNonWhite(s, d);
      assert SplitOn(s, c) == [s];
    } else {
      var ps := SplitOn(s, c);
      assert ps == [s[..i]] + SplitOn(s[i + 1..], c);
      assert ps[0] == s[..i] && ps[1..] == SplitOn(s[i + 1..], c);
      if d in s[..i] {
        TrimNonWhite(s[..i], d);
      } else {
        assert d in s[i + 1..] by {
          var j :| 0 <= j < |s| && s[j] == d;
          if j > i {
            assert s[i + 1..][j - i - 1] == d;
          }
        }
        ExplodeNonWhite(s[i + 1..], c, d);
      }
    }
  }

  /** A piece `Explode` gives back unchanged. */
  predicate IsSegment(x: string, c: char) { x != "" && IsTrimmed(x) && c !in x }

  lemma {:induction false} CleanPiecesOfSegments(xs: seq<string>, c: char)
    requires forall i :: 0 <= i < |xs| ==> IsSegment(xs[i], c)
    ensures CleanPieces(xs) == xs
  {
    if |xs| > 0 {
      TrimOfTrimmed(xs[0]);
      CleanPiecesOfSegments(xs[1..], c);
      assert xs == [xs[0]] + xs[1..];
    }
  }

  lemma {:induction false} ExplodeJoin(xs: seq<string>, c: char)
    requires forall i :: 0 <= i < |xs| ==> IsSegment(xs[i], c)
    ensures Explode(Join([c], xs), c) == xs
  {
    if |xs| == 0 {
      assert SplitOn("", c) == [""];
      assert CleanPieces([""]) == [];
    } else {
      SplitOnJoin(xs, c);
      CleanPiecesOfSegments(xs, c);
    }
  }

  /** The non-empty parts, in order. */
  function NonEmpty(xs: seq<string>): (r: seq<string>)
    ensures forall i :: 0 <= i < |r| ==> r[i] != ""
  {
    if |xs| == 0 then [] else (if xs[0] == "" then [] else [xs[0]]) + NonEmpty(xs[1..])
  }

  /** The engine's `Utils.implode(glue, parts...)`: joins the non-empty parts. */
  function Implode(sep: string, xs: seq<string>): string
  {
    Join(sep, NonEmpty(xs))
  }

  /** Removes every occurrence of one character (`String.replace("x", "")`). */
  function RemoveChar(s: string, c: char): (r: string)
    ensures c !in r && |r| <= |s|
    ensures forall x :: x != c ==> (x in r <==> x in s)
  {
    if |s| == 0 then ""
    else (if s[0] == c then "" else [s[0]]) + RemoveChar(s[1..], c)
  }

  // ---------------------------------------------------------------- replace

  /** Java's `String.replace(target, replacement)`: non-overlapping, left to right. */
  function ReplaceAll(s: string, pat: string, rep: string): string
    requires |pat| > 0
    decreases |s|
  {
    if |s| < |pat| then s
    else if s[..|pat|] == pat then rep + ReplaceAll(s[|pat|..], pat, rep)
    else [s[0]] + ReplaceAll(s[1..], pat, rep)
  }

  lemma {:induction false} ReplaceAllAbsent(s: string, pat: string, rep: string)
    requires |pat| > 0
    requires forall i :: 0 <= i <= |s| ==> !OccursAt(s, pat, i)
    ensures ReplaceAll(s, pat, rep) == s
    decreases |s|
  {
    if |s| >= |pat| {
      assert !OccursAt(s, pat, 0);
      forall i | 0 <= i <= |s[1..]|
        ensures !OccursAt(s[1..], pat, i)
      {
        assert !OccursAt(s, pat, i + 1);
        if i + |pat| <= |s[1..]| {
          assert s[1..][i..i + |pat|] == s[i + 1..i + 1 + |pat|];
        }
      }
      ReplaceAllAbsent(s[1..], pat, rep);
    }
  }

  /** A prefix without the pattern's first character is copied as it is. */
  lemma {:induction false} ReplaceAllSkip(a: string, b: string, pat: string, rep: string)
    requires |pat| > 0 && pat[0] !in a
    ensures ReplaceAll(a + b, pat, rep) == a + ReplaceAll(b, pat, rep)
    decreases |a|
  {
    if |a| == 0 {
      assert a + b == b;
    } else {
      var s := a + b;
      var c, a' := a[0], a[1..];
      assert c in a;
      assert s[0] == c;
      ReplaceAllCopiesFirst(s, pat, rep);
      assert s[1..] == a' + b;
      ReplaceAllSkip(a', b, pat, rep);
      assert a == [c] + a';
      assert [c] + (a' + ReplaceAll(b, pat, rep)) == a + ReplaceAll(b, pat, rep);
    }
  }

  /** A first character that cannot start the pattern is copied. */
  lemma ReplaceAllCopiesFirst(s: string, pat: string, rep: string)
    requires |pat| > 0 && |s| > 0 && s[0] != pat[0]
    ensures ReplaceAll(s, pat, rep) == [s[0]] + ReplaceAll(s[1..], pat, rep)
  {
    if |s| >= |pat| {
      assert s[..|pat|][0] == s[0];
    } else {
      assert s == [s[0]] + s[1..];
    }
  }

  /** Text lacking one of the pattern's characters holds no occurrence and is left alone. */
  lemma ReplaceAllMissingChar(s: string, pat: string, rep: string, k: nat)
    requires k < |pat| && pat[k] !in s
    ensures ReplaceAll(s, pat, rep) == s
  {
    forall i | 0 <= i <= |s|
      ensures !OccursAt(s, pat, i)
    {
      if i + |pat| <= |s| {
        assert s[i + k] in s;
      }
    }
    ReplaceAllAbsent(s, pat, rep);
  }

  /**
   * The leftmost occurrence is the one replaced: text before it is kept and
   * the replacement goes on after it.
   */
  lemma {:induction false} ReplaceAllFirst(a: string, pat: string, b: string, rep: string)
    requires |pat| > 0
    requires forall i :: 0 <= i < |a| ==> !OccursAt(a + pat + b, pat, i)
    ensures ReplaceAll(a + pat + b, pat, rep) == a + rep + ReplaceAll(b, pat, rep)
    decreases |a|
  {
    var s := a + pat + b;
    if |a| == 0 {
      assert s == pat + b;
      assert s[..|pat|] == pat;
      assert s[|pat|..] == b;
    } else {
      assert !OccursAt(s, pat, 0);
      assert s[1..] == a[1..] + pat + b;
      NoOccurrenceTail(a, pat, b);
      ReplaceAllFirst(a[1..], pat, b, rep);
      assert ReplaceAll(s, pat, rep) == [s[0]] + ReplaceAll(s[1..], pat, rep);
      assert a == [a[0]] + a[1..];
    }
  }

  lemma NoOccurrenceTail(a: string, pat: string, b: string)
    requires |a| > 0
    requires forall i :: 0 <= i < |a| ==> !OccursAt(a + pat + b, pat, i)
    ensures forall i :: 0 <= i < |a[1..]| ==> !OccursAt(a[1..] + pat + b, pat, i)
  {
    var s := a + pat + b;
    assert s[1..] == a[1..] + pat + b;
    forall i | 0 <= i < |a[1..]|
      ensures !OccursAt(a[1..] + pat + b, pat, i)
    {
      assert !OccursAt(s, pat, i + 1);
      assert s[1..][i..i + |pat|] == s[i + 1..i + 1 + |pat|];
    }
  }

  // ---------------------------------------------------------------- numbers

  predicate IsDigit(c: char) { '0' <= c <= '9' }

  predicate AllDigits(s: string) { forall i :: 0 <= i < |s| ==> IsDigit(s[i]) }

  function DigitChar(d: nat): (c: char)
    requires d < 10
    ensures IsDigit(c)
  {
    ('0' as int + d) as char
  }

  /** The decimal numeral of a natural number, without leading zeros. */
  function NatToString(n: nat): (r: string)
    ensures |r| >= 1 && AllDigits(r)
  {
    if n < 10 then [DigitChar(n)] else NatToString(n / 10) + [DigitChar(n % 10)]
  }

  /** `Integer.toString`: a minus sign for negative numbers, then the numeral. */
  function IntToString(n: int): (r: string)
    ensures |r| >= 1 && AllDigits(r[1..])
    ensures '-' !in r[1..]
  {
    if n < 0 then "-" + NatToString(-n) else NatToString(n)
  }

  /** The value of a decimal numeral. */
  function ParseNat(s: string): nat
    requires AllDigits(s)
  {
    if s == [] then 0 else ParseNat(s[..|s| - 1]) * 10 + (s[|s| - 1] as int - '0' as int)
  }

  lemma {:induction false} ParseNatToString(n: nat)
    ensures ParseNat(NatToString(n)) == n
  {
    if n >= 10 {
      var s := NatToString(n);
      assert s[..|s| - 1] == NatToString(n / 10);
      ParseNatToString(n / 10);
    }
  }

  lemma NatToStringInjective(a: nat, b: nat)
    requires NatToString(a) == NatToString(b)
    ensures a == b
  {
    ParseNatToString(a);
    ParseNatToString(b);
  }

  lemma IntToStringInjective(a: int, b: int)
    requires IntToString(a) == IntToString(b)
    ensures a == b
  {
    if a < 0 && b < 0 {
      assert NatToString(-a) == IntToString(a)[1..];
      assert NatToString(-b) == IntToString(b)[1..];
      NatToStringInjective(-a, -b);
    } else {
      SignOfIntToString(a);
      SignOfIntToString(b);
      if a >= 0 {
        NatToStringInjective(a, b);
      }
    }
  }

  lemma SignOfIntToString(n: int)
    ensures IntToString(n)[0] == '-' <==> n < 0
  {
    if n >= 0 {
      assert IsDigit(NatToString(n)[0]);
    }
  }

  /**
   * A text made of a head that holds the separator at most in its first position,
   * the separator, and a tail, determines its head and its tail.
   */
  lemma SplitAtSeparator(x: string, y: string, x': string, y': string, sep: char)
    requires |x| >= 1 && |x'| >= 1
    requires sep !in x[1..] && sep !in x'[1..]
    requires x + [sep] + y == x' + [sep] + y'
    ensures x == x' && y == y'
  {
    var s := x + [sep] + y;
    FirstSeparator(x, y, sep);
    FirstSeparator(x', y', sep);
    assert x == s[..|x|];
    assert x' == s[..|x'|];
    assert y == s[|x| + 1..];
  }

  lemma FirstSeparator(x: string, y: string, sep: char)
    requires |x| >= 1 && sep !in x[1..]
    ensures (x + [sep] + y)[|x|] == sep
    ensures forall i :: 1 <= i < |x| ==> (x + [sep] + y)[i] != sep
  {
    forall i | 1 <= i < |x|
      ensures (x + [sep] + y)[i] != sep
    {
      assert x[1..][i - 1] == x[i];
    }
  }
}

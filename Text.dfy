/**
 * String helpers at the ASCII level: the character classes the validation
 * regular expressions use, lower- and upper-casing, substring search
 * (`String.prototype.includes`), `Array.prototype.join` and a splitter that
 * undoes it.
 */
module Text {

  predicate IsAsciiLetter(c: char) {
    'a' <= c <= 'z' || 'A' <= c <= 'Z'
  }

  predicate IsAsciiUpper(c: char) {
    'A' <= c <= 'Z'
  }

  predicate IsAsciiDigit(c: char) {
    '0' <= c <= '9'
  }

  /** The ASCII members of the regular-expression class `\s`: space, tab, LF, VT, FF, CR. */
  predicate IsWhitespace(c: char) {
    c == ' ' || '\t' <= c <= '\r'
  }

  function LowerChar(c: char): (r: char)
    ensures IsAsciiUpper(c) ==> 'a' <= r <= 'z'
    ensures !IsAsciiUpper(c) ==> r == c
  {
    if IsAsciiUpper(c) then (c as int + 32) as char else c
  }

  function UpperChar(c: char): (r: char)
    ensures 'a' <= c <= 'z' ==> IsAsciiUpper(r)
    ensures !('a' <= c <= 'z') ==> r == c
  {
    if 'a' <= c <= 'z' then (c as int - 32) as char else c
  }

  /** Each ASCII letter is mapped to its partner of the other case, 32 code points away, and back. */
  lemma CasePartners(c: char)
    ensures IsAsciiUpper(c) ==> LowerChar(c) as int == c as int + 32 && UpperChar(LowerChar(c)) == c
    ensures 'a' <= c <= 'z' ==> UpperChar(c) as int == c as int - 32 && LowerChar(UpperChar(c)) == c
  {
  }

  /** `toLowerCase`, restricted to ASCII letters. */
  function Lower(s: string): (r: string)
    ensures |r| == |s|
    ensures forall i :: 0 <= i < |s| ==> r[i] == LowerChar(s[i])
  {
    if s == [] then [] else [LowerChar(s[0])] + Lower(s[1..])
  }

  /** `toUpperCase`, restricted to ASCII letters. */
  function Upper(s: string): (r: string)
    ensures |r| == |s|
    ensures forall i :: 0 <= i < |s| ==> r[i] == UpperChar(s[i])
  {
    if s == [] then [] else [UpperChar(s[0])] + Upper(s[1..])
  }

  predicate IsPrefix(p: string, s: string) {
    |p| <= |s| && s[..|p|] == p
  }

  /** `s.includes(needle)` as a left-to-right scan over the start positions. */
  predicate Includes(s: string, needle: string)
    decreases |s|
  {
    IsPrefix(needle, s) || (|s| > 0 && Includes(s[1..], needle))
  }

  /** The meaning of `includes`: `needle` occurs in `s` at some offset. */
  ghost predicate OccursIn(needle: string, s: string) {
    exists i :: 0 <= i <= |s| && IsPrefix(needle, s[i..])
  }

  lemma {:induction false} IncludesIffOccurs(s: string, needle: string)
    ensures Includes(s, needle) <==> OccursIn(needle, s)
    decreases |s|
  {
    if IsPrefix(needle, s) {
      assert s[0..] == s;
    } else if |s| > 0 {
      IncludesIffOccurs(s[1..], needle);
      if Includes(s[1..], needle) {
        var j :| 0 <= j <= |s[1..]| && IsPrefix(needle, s[1..][j..]);
        assert s[1..][j..] == s[j + 1..];
      }
      if OccursIn(needle, s) {
        var i :| 0 <= i <= |s| && IsPrefix(needle, s[i..]);
        assert i != 0 by { assert s[0..] == s; }
        assert s[1..][i - 1..] == s[i..];
      }
    } else {
      assert s[0..] == s;
    }
  }

  /** `parts.join(sep)`. */
  function Join(parts: seq<string>, sep: string): string
  {
    if |parts| == 0 then ""
    else if |parts| == 1 then parts[0]
    else parts[0] + sep + Join(parts[1..], sep)
  }

  /** `xs` is `ys` with some elements dropped and the rest in their order. */
  predicate IsSubsequence<T(==)>(xs: seq<T>, ys: seq<T>)
    decreases |ys|
  {
    if xs == [] then true
    else if ys == [] then false
    else if xs[0] == ys[0] then IsSubsequence(xs[1..], ys[1..])
    else IsSubsequence(xs, ys[1..])
  }

  /** `parts.filter(Boolean)`: the non-empty strings, in their order. */
  function NonEmpty(parts: seq<string>): seq<string> {
    if parts == [] then []
    else (if parts[0] != "" then [parts[0]] else []) + NonEmpty(parts[1..])
  }

  /**
   * The filter keeps every non-empty string as often as it occurs, drops
   * every empty one, and keeps the order.
   */
  lemma NonEmptyKeeps(parts: seq<string>)
    ensures forall i :: 0 <= i < |NonEmpty(parts)| ==> NonEmpty(parts)[i] != ""
    ensures IsSubsequence(NonEmpty(parts), parts)
    ensures forall x :: x != "" ==> multiset(NonEmpty(parts))[x] == multiset(parts)[x]
  {
    NonEmptyInOrder(parts);
    NonEmptyCounts(parts);
  }

  lemma {:induction false} NonEmptyInOrder(parts: seq<string>)
    ensures forall i :: 0 <= i < |NonEmpty(parts)| ==> NonEmpty(parts)[i] != ""
    ensures IsSubsequence(NonEmpty(parts), parts)
  {
    if parts != [] {
      var rest := NonEmpty(parts[1..]);
      NonEmptyInOrder(parts[1..]);
      if parts[0] != "" {
        assert ([parts[0]] + rest)[1..] == rest;
      } else {
        assert NonEmpty(parts) == rest;
        assert rest != [] ==> rest[0] != parts[0];
      }
    }
  }

  lemma {:induction false} NonEmptyCounts(parts: seq<string>)
    ensures forall x :: x != "" ==> multiset(NonEmpty(parts))[x] == multiset(parts)[x]
  {
    if parts != [] {
      NonEmptyCounts(parts[1..]);
      assert parts == [parts[0]] + parts[1..];
    }
  }

  /** `s.split(c)`: the pieces between occurrences of `c`. */
  function SplitOn(s: string, c: char): (r: seq<string>)
    ensures |r| >= 1
    decreases |s|
  {
    if s == [] then [""]
    else if s[0] == c then [""] + SplitOn(s[1..], c)
    else
      var rest := SplitOn(s[1..], c);
      [[s[0]] + rest[0]] + rest[1..]
  }

  /** Text free of the separator sticks to the front of the first piece. */
  lemma {:induction false} SplitPrepend(w: string, s: string, c: char)
    requires c !in w
    ensures SplitOn(w + s, c) == [w + SplitOn(s, c)[0]] + SplitOn(s, c)[1..]
    decreases |w|
  {
    if w == [] {
      assert w + s == s;
      assert w + SplitOn(s, c)[0] == SplitOn(s, c)[0];
    } else {
      assert (w + s)[0] == w[0];
      assert (w + s)[1..] == w[1..] + s;
      SplitPrepend(w[1..], s, c);
      assert [w[0]] + (w[1..] + SplitOn(s, c)[0]) == w + SplitOn(s, c)[0];
    }
  }

  /** Each string of `xs` with `t` in front. */
  function Prefixed(t: string, xs: seq<string>): (r: seq<string>)
    ensures |r| == |xs|
  {
    if xs == [] then [] else [t + xs[0]] + Prefixed(t, xs[1..])
  }

  /**
   * Splitting a join at the first character of the separator gives the parts
   * back, every part after the first still carrying the separator's tail.
   */
  lemma {:induction false} SplitJoin(parts: seq<string>, c: char, t: string)
    requires |parts| >= 1
    requires c !in t
    requires forall i :: 0 <= i < |parts| ==> c !in parts[i]
    ensures SplitOn(Join(parts, [c] + t), c) == [parts[0]] + Prefixed(t, parts[1..])
  {
    var sep := [c] + t;
    if |parts| == 1 {
      SplitPrepend(parts[0], "", c);
      assert parts[0] + "" == parts[0];
    } else {
      var rest := parts[1..];
      var j := Join(rest, sep);
      assert Join(parts, sep) == parts[0] + ([c] + (t + j));
      SplitPrepend(parts[0], [c] + (t + j), c);
      assert ([c] + (t + j))[1..] == t + j;
      assert SplitOn([c] + (t + j), c) == [""] + SplitOn(t + j, c);
      SplitPrepend(t, j, c);
      SplitJoin(rest, c, t);
      assert parts[0] + "" == parts[0];
    }
  }
}

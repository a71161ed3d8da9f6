/** The few `str` operations the scrapers use, on `string = seq<char>`. */
module Text {

  /** `p` is a prefix of `s`. */
  predicate IsPrefix(p: string, s: string) {
    |p| <= |s| && s[..|p|] == p
  }

  /** Python's `sub in s`: some slice of `s` equals `sub` (the empty text is in every text). */
  predicate Contains(s: string, sub: string)
    decreases |s|
  {
    IsPrefix(sub, s) || (|s| > 0 && Contains(s[1..], sub))
  }

  /** `Contains` holds exactly when `sub` starts at some position of `s`. */
  lemma {:induction false} ContainsAt(s: string, sub: string)
    ensures Contains(s, sub) <==> exists i :: 0 <= i <= |s| && IsPrefix(sub, s[i..])
  {
    assert s[0..] == s;
    if s != [] {
      ContainsAt(s[1..], sub);
      assert forall i :: 1 <= i <= |s| ==> s[1..][i - 1..] == s[i..];
    }
  }

  /** Python's `s.count(c)` for a single character. */
  function Count(s: string, c: char): (n: nat)
    ensures n <= |s|
    ensures n == 0 <==> c !in s
  {
    if s == [] then 0 else (if s[0] == c then 1 else 0) + Count(s[1..], c)
  }

  /** Python's `s.replace(c, "")`: every occurrence of `c` removed, the rest in order. */
  function Delete(s: string, c: char): (r: string)
    ensures |r| == |s| - Count(s, c)
    ensures c !in r
  {
    if s == [] then [] else (if s[0] == c then [] else [s[0]]) + Delete(s[1..], c)
  }

  /** Python's `s.replace(c, d)` for single characters: same length, each `c` turned into `d`. */
  function Replace(s: string, c: char, d: char): (r: string)
    ensures |r| == |s|
    ensures forall i :: 0 <= i < |s| ==> r[i] == if s[i] == c then d else s[i]
  {
    if s == [] then [] else [if s[0] == c then d else s[0]] + Replace(s[1..], c, d)
  }

  /** Deleting `c` leaves the number of every other character unchanged. */
  lemma {:induction false} DeleteKeeps(s: string, c: char, d: char)
    requires d != c
    ensures Count(Delete(s, c), d) == Count(s, d)
  {
    if s != [] {
      DeleteKeeps(s[1..], c, d);
      assert Delete(s, c) == (if s[0] == c then [] else [s[0]]) + Delete(s[1..], c);
      CountConcat(if s[0] == c then [] else [s[0]], Delete(s[1..], c), d);
    }
  }

  /** Replacing `c` by `d` moves every `c` into the count of `d`; no `c` is left. */
  lemma {:induction false} ReplaceCounts(s: string, c: char, d: char)
    requires c != d
    ensures Count(Replace(s, c, d), d) == Count(s, d) + Count(s, c)
    ensures Count(Replace(s, c, d), c) == 0
  {
    if s != [] {
      ReplaceCounts(s[1..], c, d);
      var r := Replace(s, c, d);
      assert r[1..] == Replace(s[1..], c, d);
    }
  }

  /** Replacing `c` by `d` leaves the number of every third character unchanged. */
  lemma {:induction false} ReplaceKeeps(s: string, c: char, d: char, e: char)
    requires e != c && e != d
    ensures Count(Replace(s, c, d), e) == Count(s, e)
  {
    if s != [] {
      ReplaceKeeps(s[1..], c, d, e);
      var r := Replace(s, c, d);
      assert r[1..] == Replace(s[1..], c, d);
    }
  }

  lemma {:induction false} DeleteConcat(a: string, b: string, c: char)
    ensures Delete(a + b, c) == Delete(a, c) + Delete(b, c)
  {
    if a != [] {
      assert (a + b)[1..] == a[1..] + b;
      DeleteConcat(a[1..], b, c);
    } else {
      assert a + b == b;
    }
  }

  lemma {:induction false} ReplaceConcat(a: string, b: string, c: char, d: char)
    ensures Replace(a + b, c, d) == Replace(a, c, d) + Replace(b, c, d)
  {
  }

  lemma {:induction false} CountConcat(a: string, b: string, c: char)
    ensures Count(a + b, c) == Count(a, c) + Count(b, c)
  {
    if a != [] {
      assert (a + b)[1..] == a[1..] + b;
      CountConcat(a[1..], b, c);
    } else {
      assert a + b == b;
    }
  }

  /** The 29 code points for which Python's `str.isspace()` holds, listed one by one. */
  const SpaceChars: set<char> := {
    '\U{0009}', '\U{000A}', '\U{000B}', '\U{000C}', '\U{000D}',
    '\U{001C}', '\U{001D}', '\U{001E}', '\U{001F}', '\U{0020}',
    '\U{0085}', '\U{00A0}', '\U{1680}',
    '\U{2000}', '\U{2001}', '\U{2002}', '\U{2003}', '\U{2004}', '\U{2005}',
    '\U{2006}', '\U{2007}', '\U{2008}', '\U{2009}', '\U{200A}',
    '\U{2028}', '\U{2029}', '\U{202F}', '\U{205F}', '\U{3000}'
  }

  /** The characters Python's `str.strip()` removes, as code-point ranges. */
  predicate IsSpace(ch: char) {
    || ('\U{0009}' <= ch <= '\U{000D}')
    || ('\U{001C}' <= ch <= '\U{0020}')
    || ch == '\U{0085}' || ch == '\U{00A0}' || ch == '\U{1680}'
    || ('\U{2000}' <= ch <= '\U{200A}')
    || ch == '\U{2028}' || ch == '\U{2029}' || ch == '\U{202F}' || ch == '\U{205F}' || ch == '\U{3000}'
  }

  /** The code-point ranges of `IsSpace` hold exactly the listed characters. */
  lemma IsSpaceListed(ch: char)
    ensures IsSpace(ch) <==> ch in SpaceChars
  {
  }

  /** Python's `s.lstrip()`: the longest suffix of `s` that does not start with whitespace. */
  function StripLeft(s: string): (r: string)
    ensures |r| <= |s| && r == s[|s| - |r|..]
    ensures r == [] || !IsSpace(r[0])
    ensures forall i :: 0 <= i < |s| - |r| ==> IsSpace(s[i])
  {
    if s != [] && IsSpace(s[0]) then StripLeft(s[1..]) else s
  }

  /** Python's `s.rstrip()`: the longest prefix of `s` that does not end with whitespace. */
  function StripRight(s: string): (r: string)
    ensures |r| <= |s| && r == s[..|r|]
    ensures r == [] || !IsSpace(r[|r| - 1])
    ensures forall i :: |r| <= i < |s| ==> IsSpace(s[i])
  {
    if s != [] && IsSpace(s[|s| - 1]) then StripRight(s[..|s| - 1]) else s
  }

  /** Python's `s.strip()`: a slice of `s` with whitespace at neither end. */
  function Strip(s: string): (r: string)
    ensures |r| <= |s|
    ensures r == [] || (!IsSpace(r[0]) && !IsSpace(r[|r| - 1]))
  {
    StripRight(StripLeft(s))
  }

  /** `strip()` keeps the slice of `s` between a whitespace-only head and a whitespace-only tail. */
  lemma StripSlice(s: string) returns (i: nat, j: nat)
    ensures i <= j <= |s| && Strip(s) == s[i..j]
    ensures forall k :: 0 <= k < i ==> IsSpace(s[k])
    ensures forall k :: j <= k < |s| ==> IsSpace(s[k])
  {
    var l := StripLeft(s);
    var r := StripRight(l);
    i, j := |s| - |l|, |s| - |l| + |r|;
    SliceOfSuffix(s, i, |r|);
    forall k | j <= k < |s|
      ensures IsSpace(s[k])
    {
      assert s[k] == l[k - i];
    }
  }

  lemma SliceOfSuffix(s: string, i: nat, n: nat)
    requires i + n <= |s|
    ensures s[i..][..n] == s[i..i + n]
  {
  }

  /** Stripping a text that has no whitespace at either end leaves it unchanged. */
  lemma StripTrimmed(s: string)
    requires s == [] || (!IsSpace(s[0]) && !IsSpace(s[|s| - 1]))
    ensures Strip(s) == s
  {
  }
}

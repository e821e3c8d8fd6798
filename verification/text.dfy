/** The two JavaScript string operations the parking screens apply to what the
    user types: `String.prototype.trim` and `String.prototype.toUpperCase`. */
module Text {

  /** The code points `trim` removes: ECMAScript WhiteSpace (tab, vertical tab,
      form feed, space, no-break space, byte-order mark and the Unicode space
      separators) and LineTerminator (line feed, carriage return, line and
      paragraph separator). */
  predicate IsSpace(c: char) {
    || c == '\t' || c == '\n' || c == '\U{000B}' || c == '\U{000C}' || c == '\r'
    || c == ' ' || c == '\U{00A0}' || c == '\U{1680}'
    || ('\U{2000}' <= c <= '\U{200A}')
    || c == '\U{2028}' || c == '\U{2029}' || c == '\U{202F}' || c == '\U{205F}'
    || c == '\U{3000}' || c == '\U{FEFF}'
  }

  /** Every character of `s` is whitespace (vacuously so for ""). */
  predicate AllSpace(s: string) {
    forall k :: 0 <= k < |s| ==> IsSpace(s[k])
  }

  /** `r` is `s[i..]` up to a whitespace-only tail, and `s[..i]` is
      whitespace only. */
  predicate Strips(s: string, i: nat, r: string) {
    && i + |r| <= |s|
    && r == s[i..i + |r|]
    && (forall k :: 0 <= k < i ==> IsSpace(s[k]))
    && (forall k :: i + |r| <= k < |s| ==> IsSpace(s[k]))
  }

  /** The first position at or after `i` that holds text, or |s|. */
  function SkipSpace(s: string, i: nat): (j: nat)
    requires i <= |s|
    ensures i <= j <= |s|
    ensures forall k :: i <= k < j ==> IsSpace(s[k])
    ensures j < |s| ==> !IsSpace(s[j])
    decreases |s| - i
  {
    if i < |s| && IsSpace(s[i]) then SkipSpace(s, i + 1) else i
  }

  /** The position just past the last text before `j`, not going below `lo`. */
  function SkipSpaceBack(s: string, lo: nat, j: nat): (e: nat)
    requires lo <= j <= |s|
    ensures lo <= e <= j
    ensures forall k :: e <= k < j ==> IsSpace(s[k])
    ensures e > lo ==> !IsSpace(s[e - 1])
    decreases j
  {
    if j > lo && IsSpace(s[j - 1]) then SkipSpaceBack(s, lo, j - 1) else j
  }

  /** `s.trim()`: the infix of `s` left once the whitespace runs at both ends
      are cut off. */
  function Trim(s: string): (r: string)
    ensures exists i: nat :: Strips(s, i, r)
    ensures r == [] || (!IsSpace(r[0]) && !IsSpace(r[|r| - 1]))
    ensures r == [] <==> AllSpace(s)
  {
    var a := SkipSpace(s, 0);
    var b := SkipSpaceBack(s, a, |s|);
    assert Strips(s, a, s[a..b]);
    s[a..b]
  }

  /** `!s.trim()`: the input holds nothing but whitespace. */
  predicate Blank(s: string) {
    Trim(s) == []
  }

  /** Trimming a trimmed string changes nothing. */
  lemma TrimIdempotent(s: string)
    ensures Trim(Trim(s)) == Trim(s)
  {
    var r := Trim(s);
    if r != [] {
      assert SkipSpace(r, 0) == 0;
      assert SkipSpaceBack(r, 0, |r|) == |r|;
    }
  }

  /** `toUpperCase` on one character, for the ASCII letters. */
  function UpperChar(c: char): (u: char)
    ensures 'a' <= c <= 'z' ==> 'A' <= u <= 'Z' && u as int - 'A' as int == c as int - 'a' as int
    ensures !('a' <= c <= 'z') ==> u == c
  {
    if 'a' <= c <= 'z' then (c as int - 'a' as int + 'A' as int) as char else c
  }

  /** `s.toUpperCase()`, character by character. */
  function Upper(s: string): (r: string)
    ensures |r| == |s|
    ensures forall k :: 0 <= k < |s| ==> r[k] == UpperChar(s[k])
  {
    seq(|s|, k requires 0 <= k < |s| => UpperChar(s[k]))
  }

  /** Upper-casing never turns whitespace into text or text into whitespace. */
  lemma UpperCharKeepsSpace(c: char)
    ensures IsSpace(UpperChar(c)) <==> IsSpace(c)
  {
  }

  lemma {:induction false} UpperAllSpace(s: string)
    ensures AllSpace(Upper(s)) <==> AllSpace(s)
  {
    forall k | 0 <= k < |s| {
      UpperCharKeepsSpace(s[k]);
    }
  }

  /** Upper-casing twice is upper-casing once. */
  lemma UpperIdempotent(s: string)
    ensures Upper(Upper(s)) == Upper(s)
  {
  }

  lemma {:induction false} SkipSpaceUpper(s: string, i: nat)
    requires i <= |s|
    ensures SkipSpace(Upper(s), i) == SkipSpace(s, i)
    decreases |s| - i
  {
    if i < |s| {
      UpperCharKeepsSpace(s[i]);
      if IsSpace(s[i]) {
        SkipSpaceUpper(s, i + 1);
      }
    }
  }

  lemma {:induction false} SkipSpaceBackUpper(s: string, lo: nat, j: nat)
    requires lo <= j <= |s|
    ensures SkipSpaceBack(Upper(s), lo, j) == SkipSpaceBack(s, lo, j)
    decreases j
  {
    if j > lo {
      UpperCharKeepsSpace(s[j - 1]);
      if IsSpace(s[j - 1]) {
        SkipSpaceBackUpper(s, lo, j - 1);
      }
    }
  }

  /** Trimming and upper-casing commute, so an upper-cased trimmed car number
      is already in trimmed form. */
  lemma TrimUpperCommute(s: string)
    ensures Trim(Upper(s)) == Upper(Trim(s))
  {
    var u := Upper(s);
    var a := SkipSpace(s, 0);
    SkipSpaceUpper(s, 0);
    SkipSpaceBackUpper(s, a, |s|);
    var b := SkipSpaceBack(s, a, |s|);
    assert Trim(u) == u[a..b];
    UpperSlice(s, a, b);
  }

  lemma UpperSlice(s: string, a: nat, b: nat)
    requires a <= b <= |s|
    ensures Upper(s)[a..b] == Upper(s[a..b])
  {
    var x := Upper(s)[a..b];
    var y := Upper(s[a..b]);
    assert |x| == |y|;
    forall k | 0 <= k < |x|
      ensures x[k] == y[k]
    {
      assert x[k] == UpperChar(s[a + k]);
    }
  }
}

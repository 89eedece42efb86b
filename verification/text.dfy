/** The string primitives the bot relies on: `str.lower()`, the `in`
    substring test and `str.strip()`. */
module Text {

  predicate IsUpper(c: char) {
    'A' <= c <= 'Z'
  }

  /** ASCII lower-casing of one character; every other character is kept. */
  function LowerChar(c: char): char {
    if IsUpper(c) then (c as int - 'A' as int + 'a' as int) as char else c
  }

  /** `s.lower()`, restricted to the ASCII letters. */
  function ToLower(s: string): (r: string)
    ensures |r| == |s|
    ensures forall i :: 0 <= i < |r| ==> !IsUpper(r[i])
    ensures forall i :: 0 <= i < |r| ==>
              if IsUpper(s[i]) then r[i] as int == s[i] as int + 32 else r[i] == s[i]
  {
    seq(|s|, i requires 0 <= i < |s| => LowerChar(s[i]))
  }

  /** Lower-casing twice is lower-casing once. */
  lemma ToLowerIdempotent(s: string)
    ensures ToLower(ToLower(s)) == ToLower(s)
  {
    var t := ToLower(s);
    var u := ToLower(t);
    forall i | 0 <= i < |u|
      ensures u[i] == t[i]
    {
      assert !IsUpper(t[i]);
    }
  }

  /** `needle` occurs somewhere in `haystack`, as a contiguous slice. This is
      the reference meaning of Python's `needle in haystack`. */
  ghost predicate Occurs(needle: string, haystack: string) {
    exists i :: OccursAt(needle, haystack, i)
  }

  /** `needle` is the slice of `haystack` that starts at index `i`. */
  ghost predicate OccursAt(needle: string, haystack: string, i: int) {
    0 <= i <= |haystack| - |needle| && haystack[i..i + |needle|] == needle
  }

  /** Python's `needle in haystack` on strings, as a left-to-right search. */
  predicate Contains(haystack: string, needle: string) {
    ContainsFrom(haystack, needle, 0)
  }

  /** The search from index `i` on: compares the slice at each position. */
  predicate ContainsFrom(haystack: string, needle: string, i: nat)
    decreases |haystack| - i
  {
    if i + |needle| > |haystack| then false
    else if haystack[i..i + |needle|] == needle then true
    else ContainsFrom(haystack, needle, i + 1)
  }

  /** The search from `i` succeeds exactly when `needle` occurs at some
      position from `i` on. */
  lemma {:induction false} ContainsFromIffOccurs(haystack: string, needle: string, i: nat)
    ensures ContainsFrom(haystack, needle, i) <==> exists k :: i <= k && OccursAt(needle, haystack, k)
    decreases |haystack| - i
  {
    if i + |needle| > |haystack| {
      assert forall k :: i <= k ==> !OccursAt(needle, haystack, k);
    } else if haystack[i..i + |needle|] == needle {
      assert OccursAt(needle, haystack, i);
    } else {
      ContainsFromIffOccurs(haystack, needle, i + 1);
      assert !OccursAt(needle, haystack, i);
    }
  }

  /** The search finds `needle` exactly when it occurs. */
  lemma ContainsIffOccurs(haystack: string, needle: string)
    ensures Contains(haystack, needle) <==> Occurs(needle, haystack)
  {
    ContainsFromIffOccurs(haystack, needle, 0);
  }

  /** A string occurs in any concatenation that has it as a middle part. */
  lemma OccursInMiddle(prefix: string, needle: string, suffix: string)
    ensures Occurs(needle, prefix + needle + suffix)
  {
    var h := prefix + needle + suffix;
    assert h[|prefix|..|prefix| + |needle|] == needle;
    assert OccursAt(needle, h, |prefix|);
  }

  /** An occurrence stays an occurrence when text is added around it. */
  lemma OccursWithin(needle: string, haystack: string, before: string, after: string)
    requires Occurs(needle, haystack)
    ensures Occurs(needle, before + haystack + after)
  {
    var i :| OccursAt(needle, haystack, i);
    var h := before + haystack + after;
    assert h[|before| + i..|before| + i + |needle|] == haystack[i..i + |needle|];
    assert OccursAt(needle, h, |before| + i);
  }

  /** Where the three parts of a concatenation sit in it. */
  lemma ConcatParts(a: string, b: string, c: string)
    ensures a <= a + b + c
    ensures (a + b + c)[|a|..|a| + |b|] == b
    ensures (a + b + c)[|a + b + c| - |c|..] == c
    ensures forall j :: 0 <= j < |b| ==> (a + b + c)[|a| + j] == b[j]
  {
    var h := a + b + c;
    assert h[..|a|] == a;
  }

  /** A string that starts with `head` and ends with `tail`, the two not
      overlapping, is `head`, then the part between, then `tail`. */
  lemma SplitAround(s: string, head: string, tail: string)
    requires |head| + |tail| <= |s| && head <= s && s[|s| - |tail|..] == tail
    ensures head + s[|head|..|s| - |tail|] + tail == s
  {
    assert s[..|head|] == head;
    assert s == s[..|head|] + s[|head|..|s| - |tail|] + s[|s| - |tail|..];
  }

  /** The second of five parts occurs in their concatenation. */
  lemma OccursSecondOfFive(a: string, b: string, c: string, d: string, e: string)
    ensures Occurs(b, a + b + c + d + e)
  {
    var h := a + b + c + d + e;
    assert h == a + b + (c + d + e);
    OccursInMiddle(a, b, c + d + e);
  }

  /** An occurrence in the third of five parts is one in their
      concatenation. */
  lemma OccursInThirdOfFive(needle: string, a: string, b: string, c: string, d: string, e: string)
    requires Occurs(needle, c)
    ensures Occurs(needle, a + b + c + d + e)
  {
    assert a + b + c + d + e == (a + b) + c + (d + e);
    OccursWithin(needle, c, a + b, d + e);
  }

  /** An occurrence in the last of three parts is one in their
      concatenation. */
  lemma OccursInLastOfThree(needle: string, a: string, b: string, c: string)
    requires Occurs(needle, c)
    ensures Occurs(needle, a + b + c)
  {
    assert a + b + c == (a + b) + c + [];
    OccursWithin(needle, c, a + b, []);
  }

  /** Nothing but the empty string occurs in the empty string. */
  lemma OccursInEmpty(needle: string)
    ensures Occurs(needle, []) <==> needle == []
  {
    var empty: string := [];
    if needle == [] {
      assert OccursAt(needle, empty, 0);
    }
  }

  /** The characters Python's `str.isspace()` accepts, which are the ones
      `str.strip()` removes when called without arguments. */
  const Whitespace: set<char> := {
    '\t', '\n', '\U{0B}', '\U{0C}', '\r', '\U{1C}', '\U{1D}', '\U{1E}', '\U{1F}', ' ',
    '\U{85}', '\U{A0}', '\U{1680}',
    '\U{2000}', '\U{2001}', '\U{2002}', '\U{2003}', '\U{2004}', '\U{2005}',
    '\U{2006}', '\U{2007}', '\U{2008}', '\U{2009}', '\U{200A}',
    '\U{2028}', '\U{2029}', '\U{202F}', '\U{205F}', '\U{3000}'
  }

  predicate IsSpace(c: char) {
    c in Whitespace
  }

  ghost predicate AllSpace(s: string) {
    forall i :: 0 <= i < |s| ==> IsSpace(s[i])
  }

  /** The index of the first non-whitespace character at or after `i`, or
      `|s|` when there is none: the left scan of `str.strip()`. */
  function SkipSpaces(s: string, i: nat): (j: nat)
    requires i <= |s|
    ensures i <= j <= |s|
    ensures forall k :: i <= k < j ==> IsSpace(s[k])
    ensures j == |s| || !IsSpace(s[j])
    decreases |s| - i
  {
    if i < |s| && IsSpace(s[i]) then SkipSpaces(s, i + 1) else i
  }

  /** The end of `s[lo..j]` once its trailing whitespace is dropped: the
      right scan of `str.strip()`, which stops at `lo`. */
  function BackSpaces(s: string, lo: nat, j: nat): (k: nat)
    requires lo <= j <= |s|
    ensures lo <= k <= j
    ensures forall m :: k <= m < j ==> IsSpace(s[m])
    ensures k == lo || !IsSpace(s[k - 1])
    decreases j
  {
    if j > lo && IsSpace(s[j - 1]) then BackSpaces(s, lo, j - 1) else j
  }

  /** `s.strip()`: the slice between the leading and the trailing
      whitespace. */
  function Strip(s: string): string {
    var i := SkipSpaces(s, 0);
    s[i..BackSpaces(s, i, |s|)]
  }

  /** `s` is whitespace before index `a`, then `r`, then whitespace. */
  ghost predicate Padded(s: string, a: int, r: string) {
    && 0 <= a <= |s| - |r|
    && r == s[a..a + |r|]
    && (forall k :: 0 <= k < a ==> IsSpace(s[k]))
    && (forall k :: a + |r| <= k < |s| ==> IsSpace(s[k]))
  }

  /** The stripped text is what is left between the leading and the
      trailing whitespace, and it neither starts nor ends with whitespace. */
  lemma StripSpec(s: string)
    ensures Strip(s) == [] || (!IsSpace(Strip(s)[0]) && !IsSpace(Strip(s)[|Strip(s)| - 1]))
    ensures Padded(s, SkipSpaces(s, 0), Strip(s))
  {
    var i := SkipSpaces(s, 0);
    var j := BackSpaces(s, i, |s|);
    var r := s[i..j];
    assert r == Strip(s);
    if r != [] {
      assert r[0] == s[i];
      assert r[|r| - 1] == s[j - 1];
    }
  }

  /** Python's `not s.strip()`. */
  predicate IsBlank(s: string) {
    Strip(s) == []
  }

  /** A string is blank exactly when every character is whitespace. */
  lemma BlankIffAllSpace(s: string)
    ensures IsBlank(s) <==> AllSpace(s)
  {
    var r := Strip(s);
    StripSpec(s);
    var a := SkipSpaces(s, 0);
    if r != [] {
      assert s[a] == r[0];
    }
  }

  /** A text with a character that is not whitespace is not blank. */
  lemma NotBlankAt(s: string, i: nat)
    requires i < |s| && !IsSpace(s[i])
    ensures !IsBlank(s)
  {
    BlankIffAllSpace(s);
  }

  /** Lower-casing neither creates nor removes whitespace. */
  lemma LowerKeepsSpace(s: string, i: nat)
    requires i < |s|
    ensures IsSpace(ToLower(s)[i]) <==> IsSpace(s[i])
  {
    if IsUpper(s[i]) {
      assert !IsSpace(s[i]) && !IsSpace(ToLower(s)[i]);
    }
  }
}

/**
 * Python `str` operations the two core files rely on, restricted to what they
 * need: ASCII lower-casing, `str.replace`, `str.strip`, the
 * `encode("ascii", errors="ignore")` filter and substring membership.
 */
module Strings {

  /** Python's `c in string.digits` restricted to ASCII. */
  predicate IsDigit(c: char) {
    '0' <= c <= '9'
  }

  predicate IsAsciiChar(c: char) {
    (c as int) < 128
  }

  predicate IsAscii(s: string) {
    forall i :: 0 <= i < |s| ==> IsAsciiChar(s[i])
  }

  /** ASCII lower-casing of one character; every other character is unchanged. */
  function LowerChar(c: char): char {
    if 'A' <= c <= 'Z' then (c as int + 32) as char else c
  }

  function Lower(s: string): (r: string)
    ensures |r| == |s|
  {
    seq(|s|, i requires 0 <= i < |s| => LowerChar(s[i]))
  }

  lemma LowerIdempotent(s: string)
    ensures Lower(Lower(s)) == Lower(s)
  {
  }

  /** Header-name equality as werkzeug does it: ignoring ASCII case. */
  predicate EqualsIgnoreCase(a: string, b: string) {
    Lower(a) == Lower(b)
  }

  /** `t` occurs in `s` starting at index `i`. */
  predicate OccursAt(s: string, t: string, i: int) {
    0 <= i <= |s| - |t| && s[i..i + |t|] == t
  }

  /** Python's `t in s` for strings. */
  predicate Contains(s: string, t: string) {
    exists i :: 0 <= i <= |s| - |t| && OccursAt(s, t, i)
  }

  /**
   * Python's `s.replace(pat, rep)` for a non-empty `pat`: occurrences are
   * found left to right and do not overlap.
   */
  function Replace(s: string, pat: string, rep: string): string
    requires |pat| > 0
    decreases |s|
  {
    if |s| < |pat| then s
    else if s[..|pat|] == pat then rep + Replace(s[|pat|..], pat, rep)
    else [s[0]] + Replace(s[1..], pat, rep)
  }

  /** Every character of a replacement result comes from the input or from `rep`. */
  lemma {:induction false} ReplaceCharsFrom(s: string, pat: string, rep: string)
    requires |pat| > 0
    ensures forall c :: c in Replace(s, pat, rep) ==> c in s || c in rep
    decreases |s|
  {
    if |s| < |pat| {
    } else if s[..|pat|] == pat {
      ReplaceCharsFrom(s[|pat|..], pat, rep);
      forall c | c in s[|pat|..] ensures c in s {
        var i :| 0 <= i < |s[|pat|..]| && s[|pat|..][i] == c;
        assert s[|pat| + i] == c;
      }
    } else {
      ReplaceCharsFrom(s[1..], pat, rep);
      forall c | c in s[1..] ensures c in s {
        var i :| 0 <= i < |s[1..]| && s[1..][i] == c;
        assert s[1 + i] == c;
      }
    }
  }

  /** Replacing a single character by text that lacks it removes the character. */
  lemma {:induction false} ReplaceRemovesChar(s: string, a: char, rep: string)
    requires a !in rep
    ensures a !in Replace(s, [a], rep)
    decreases |s|
  {
    if |s| < 1 {
    } else if s[..1] == [a] {
      ReplaceRemovesChar(s[1..], a, rep);
    } else {
      assert s[0] != a by { assert s[..1] == [s[0]]; }
      ReplaceRemovesChar(s[1..], a, rep);
    }
  }

  /**
   * `s.replace("__", "_")` never grows the string and strictly shrinks it when
   * `"__" in s`; this is why the collapse loop of `sanitise_supplier_name` ends.
   */
  lemma {:induction false} CollapseStepShrinks(s: string)
    ensures |Replace(s, "__", "_")| <= |s|
    ensures Contains(s, "__") ==> |Replace(s, "__", "_")| < |s|
    decreases |s|
  {
    if |s| < 2 {
    } else if s[..2] == "__" {
      CollapseStepShrinks(s[2..]);
    } else {
      CollapseStepShrinks(s[1..]);
      if Contains(s, "__") {
        var i :| 0 <= i <= |s| - |"__"| && OccursAt(s, "__", i);
        assert |"__"| == 2 && s[i..i + 2] == "__";
        assert i != 0;
        assert s[1..][i - 1..i + 1] == s[i..i + 2];
        assert OccursAt(s[1..], "__", i - 1);
      }
    }
  }

  /** Python's `encode("ascii", errors="ignore").decode("ascii")`: drop non-ASCII characters. */
  function AsciiOnly(s: string): (r: string)
    ensures IsAscii(r)
    ensures forall c :: c in r ==> c in s
    ensures IsAscii(s) ==> r == s
  {
    if s == [] then []
    else if IsAsciiChar(s[0]) then [s[0]] + AsciiOnly(s[1..])
    else AsciiOnly(s[1..])
  }

  /** The filter works character by character: every ASCII character is kept, in order, and no other. */
  lemma {:induction false} AsciiOnlyKeepsAscii(a: string, b: string)
    ensures AsciiOnly(a + b) == AsciiOnly(a) + AsciiOnly(b)
    ensures |a| == 1 ==> AsciiOnly(a) == if IsAsciiChar(a[0]) then a else []
    decreases |a|
  {
    if a == [] {
      assert a + b == b;
    } else {
      assert (a + b)[1..] == a[1..] + b;
      AsciiOnlyKeepsAscii(a[1..], b);
      if |a| == 1 {
        assert a[1..] == [];
      }
    }
  }

  /** The characters Python's `str.isspace` accepts within ASCII. */
  predicate IsSpace(c: char) {
    c == ' ' || ('\t' <= c <= '\r') || ('\U{1C}' <= c <= '\U{1F}')
  }

  /** The first index at or after `i` that is not whitespace, or `|s|`. */
  function SpaceRunEnd(s: string, i: nat): (k: nat)
    requires i <= |s|
    ensures i <= k <= |s|
    ensures k == |s| || !IsSpace(s[k])
    ensures forall j :: i <= j < k ==> IsSpace(s[j])
    decreases |s| - i
  {
    if i < |s| && IsSpace(s[i]) then SpaceRunEnd(s, i + 1) else i
  }

  /** The start of the whitespace run that ends at `j`, going back no further than `lo`. */
  function SpaceRunStart(s: string, lo: nat, j: nat): (k: nat)
    requires lo <= j <= |s|
    ensures lo <= k <= j
    ensures k == lo || !IsSpace(s[k - 1])
    ensures forall m :: k <= m < j ==> IsSpace(s[m])
    decreases j
  {
    if j > lo && IsSpace(s[j - 1]) then SpaceRunStart(s, lo, j - 1) else j
  }

  /** Python's `s.strip()` for ASCII `s`: the longest slice without surrounding whitespace. */
  function Strip(s: string): (r: string)
    ensures r == [] || (!IsSpace(r[0]) && !IsSpace(r[|r| - 1]))
    ensures forall c :: c in r ==> c in s
  {
    var lo := SpaceRunEnd(s, 0);
    var hi := SpaceRunStart(s, lo, |s|);
    SliceCharsFrom(s, lo, hi - lo);
    s[lo..hi]
  }

  /** `strip` removes exactly a run of whitespace at each end and keeps the middle unchanged. */
  lemma StripTrims(s: string)
    ensures exists lo, hi ::
              && 0 <= lo <= hi <= |s| && Strip(s) == s[lo..hi]
              && (forall i :: 0 <= i < lo ==> IsSpace(s[i]))
              && (forall i :: hi <= i < |s| ==> IsSpace(s[i]))
  {
    var lo := SpaceRunEnd(s, 0);
    var hi := SpaceRunStart(s, lo, |s|);
    assert Strip(s) == s[lo..hi];
  }

  lemma SliceCharsFrom(s: string, k: int, n: int)
    requires 0 <= k <= k + n <= |s|
    ensures forall c :: c in s[k..k + n] ==> c in s
  {
    forall c | c in s[k..k + n] ensures c in s {
      var i :| 0 <= i < n && s[k..k + n][i] == c;
      assert s[k + i] == c;
    }
  }

  /** `for c in cs: s = s.replace(c, '')`, applying the characters of `cs` in order. */
  function RemoveChars(s: string, cs: seq<char>): string
    decreases |cs|
  {
    if cs == [] then s
    else Replace(RemoveChars(s, cs[..|cs| - 1]), [cs[|cs| - 1]], "")
  }

  /** After removing `cs`, no character of `cs` is left and nothing new appeared. */
  lemma {:induction false} RemoveCharsSpec(s: string, cs: seq<char>)
    ensures forall c :: c in RemoveChars(s, cs) ==> c in s && c !in cs
    decreases |cs|
  {
    if cs != [] {
      var prefix := cs[..|cs| - 1];
      var last := cs[|cs| - 1];
      RemoveCharsSpec(s, prefix);
      ReplaceCharsFrom(RemoveChars(s, prefix), [last], "");
      ReplaceRemovesChar(RemoveChars(s, prefix), last, "");
      assert cs == prefix + [last];
    }
  }
}

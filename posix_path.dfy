/**
 * `os.path.splitext` on POSIX (`posixpath.splitext`): the extension is the
 * text from the last `.` of the last path component, provided that component
 * has a character other than `.` before that dot (leading dots do not start an
 * extension).
 */
module PosixPath {

  /** Python's `s.rfind(c)`: the last index of `c`, or -1. */
  function RFind(s: string, c: char): (i: int)
    ensures -1 <= i < |s|
    ensures i >= 0 ==> s[i] == c
    ensures forall j :: i < j < |s| ==> s[j] != c
  {
    LastBefore(s, c, |s|)
  }

  /** The last index below `n` holding `c`, or -1. */
  function LastBefore(s: string, c: char, n: nat): (i: int)
    requires n <= |s|
    ensures -1 <= i < n
    ensures i >= 0 ==> s[i] == c
    ensures forall j :: i < j < n ==> s[j] != c
  {
    if n == 0 then -1
    else if s[n - 1] == c then n - 1
    else LastBefore(s, c, n - 1)
  }

  /** Appending text never moves the last `c` backwards. */
  lemma RFindAppend(s: string, t: string, c: char)
    ensures RFind(s + t, c) == if RFind(t, c) >= 0 then |s| + RFind(t, c) else RFind(s, c)
  {
    LastBeforeAppend(s, t, c, |t|);
  }

  lemma {:induction false} LastBeforeAppend(s: string, t: string, c: char, k: nat)
    requires k <= |t|
    ensures LastBefore(s + t, c, |s| + k) ==
      if LastBefore(t, c, k) >= 0 then |s| + LastBefore(t, c, k) else LastBefore(s, c, |s|)
  {
    if k == 0 {
      LastBeforePrefix(s, t, c, |s|);
    } else {
      assert (s + t)[|s| + k - 1] == t[k - 1];
      if t[k - 1] != c {
        LastBeforeAppend(s, t, c, k - 1);
      }
    }
  }

  lemma {:induction false} LastBeforePrefix(s: string, t: string, c: char, n: nat)
    requires n <= |s|
    ensures LastBefore(s + t, c, n) == LastBefore(s, c, n)
  {
    if n > 0 {
      assert (s + t)[n - 1] == s[n - 1];
      LastBeforePrefix(s, t, c, n - 1);
    }
  }

  /** Neither a `.` nor a `/`: such text cannot move where `splitext` splits. */
  predicate Plain(s: string) {
    forall i :: 0 <= i < |s| ==> s[i] != '.' && s[i] != '/'
  }

  /** What `splitext` can return as an extension: empty, or a dot followed by plain text. */
  predicate IsExtension(e: string) {
    e == [] || (e[0] == '.' && Plain(e[1..]))
  }

  /** The component between `sep` and `dot` has a character that is not a dot. */
  predicate HasStem(p: string, sep: int, dot: int)
    requires -1 <= sep && dot <= |p|
  {
    exists k :: sep < k < dot && p[k] != '.'
  }

  function SplitExt(p: string): (r: (string, string))
    ensures r.0 + r.1 == p
    ensures IsExtension(r.1)
  {
    var sep := RFind(p, '/');
    var dot := RFind(p, '.');
    if dot > sep && HasStem(p, sep, dot) then
      (p[..dot], p[dot..])
    else (p, "")
  }

  /**
   * The extension is non-empty exactly when the last component holds a dot
   * after some character other than a dot.
   */
  lemma SplitExtNonEmptyIff(p: string)
    ensures SplitExt(p).1 != [] <==>
      exists k, d :: RFind(p, '/') < k < d < |p| && p[k] != '.' && p[d] == '.'
  {
    var sep := RFind(p, '/');
    var dot := RFind(p, '.');
    if SplitExt(p).1 != [] {
      var k :| sep < k < dot && p[k] != '.';
      assert RFind(p, '/') < k < dot < |p| && p[k] != '.' && p[dot] == '.';
    }
    if exists k, d :: sep < k < d < |p| && p[k] != '.' && p[d] == '.' {
      var k, d :| sep < k < d < |p| && p[k] != '.' && p[d] == '.';
      assert d <= dot;
      assert HasStem(p, sep, dot);
    }
  }

  lemma PlainConcat(a: string, b: string)
    requires Plain(a) && Plain(b)
    ensures Plain(a + b)
  {
    assert forall i :: |a| <= i < |a| + |b| ==> (a + b)[i] == b[i - |a|];
  }

  /** After a `/` and a non-empty plain component, `splitext` finds exactly the appended extension. */
  lemma ExtensionAfterPlainComponent(a: string, c: string, e: string)
    requires |c| > 0 && Plain(c) && IsExtension(e)
    ensures SplitExt(a + "/" + c + e).1 == e
  {
    if e == [] {
      assert a + "/" + c + e == a + "/" + c;
      NoExtensionInPlainComponent(a, c);
    } else {
      ExtensionAfterPlainText(a + "/", c, e);
    }
  }

  /** A non-empty extension has its dot at index 0 and no `/`. */
  lemma ExtensionDots(e: string)
    requires e != [] && IsExtension(e)
    ensures RFind(e, '.') == 0 && RFind(e, '/') == -1
  {
    assert forall j :: 0 < j < |e| ==> e[j] == e[1..][j - 1];
  }

  /**
   * `splitext` returns the extension `t` exactly when `p` ends in `t` and the
   * last component has a character other than a dot before it.
   */
  lemma SplitExtIs(p: string, t: string)
    requires t != [] && IsExtension(t)
    ensures SplitExt(p).1 == t <==>
      && |t| <= |p| && p[|p| - |t|..] == t
      && HasStem(p, RFind(p, '/'), |p| - |t|)
  {
    if SplitExt(p).1 == t {
      SplitExtIsStem(p);
    }
    if && |t| <= |p| && p[|p| - |t|..] == t
       && HasStem(p, RFind(p, '/'), |p| - |t|) {
      StemIsSplitExt(p, t);
    }
  }

  lemma SplitExtIsStem(p: string)
    requires SplitExt(p).1 != []
    ensures var t := SplitExt(p).1;
      && |t| <= |p| && p[|p| - |t|..] == t
      && HasStem(p, RFind(p, '/'), |p| - |t|)
  {
    SplitAtLastDot(p);
  }

  /** A non-empty extension starts at the last dot, which follows a non-dot character of the last component. */
  lemma SplitAtLastDot(p: string)
    requires SplitExt(p).1 != []
    ensures 0 <= RFind(p, '.') && SplitExt(p).1 == p[RFind(p, '.')..]
    ensures HasStem(p, RFind(p, '/'), RFind(p, '.'))
  {
  }

  lemma StemIsSplitExt(p: string, t: string)
    requires t != [] && IsExtension(t)
    requires |t| <= |p| && p[|p| - |t|..] == t
    requires HasStem(p, RFind(p, '/'), |p| - |t|)
    ensures SplitExt(p).1 == t
  {
    LastDotOfExtension(p, t);
  }

  /** A path ending in a non-empty extension has its last dot where the extension starts, and no later slash. */
  lemma LastDotOfExtension(p: string, t: string)
    requires t != [] && IsExtension(t)
    requires |t| <= |p| && p[|p| - |t|..] == t
    ensures RFind(p, '.') == |p| - |t| && RFind(p, '/') < |p| - |t|
  {
    var d := |p| - |t|;
    ExtensionDots(t);
    assert p == p[..d] + t;
    RFindAppend(p[..d], t, '.');
    RFindAppend(p[..d], t, '/');
  }

  /**
   * Plain text inserted between a stem and an extension leaves the extension
   * where it was.
   */
  lemma ExtensionAfterPlainText(a: string, b: string, e: string)
    requires |b| > 0 && Plain(b)
    requires e != [] && IsExtension(e)
    ensures SplitExt(a + b + e) == (a + b, e)
  {
    var p := a + b + e;
    RFindAppend(a + b, e, '.');
    RFindAppend(a + b, e, '/');
    RFindAppend(a, b, '/');
    assert RFind(e, '.') == 0 by {
      assert forall j :: 0 < j < |e| ==> e[j] == e[1..][j - 1];
    }
    assert RFind(e, '/') == -1 by {
      assert forall j :: 0 < j < |e| ==> e[j] == e[1..][j - 1];
    }
    assert RFind(b, '/') == -1;
    var dot := |a| + |b|;
    assert RFind(p, '.') == dot;
    assert RFind(p, '/') == RFind(a, '/') < |a|;
    assert p[dot - 1] == b[|b| - 1];
    assert HasStem(p, RFind(p, '/'), dot);
    assert p[..dot] == a + b;
    assert p[dot..] == e;
  }

  /** Appending plain text to a name without an extension gives it none. */
  lemma NoExtensionAfterPlainText(r: string, b: string)
    requires SplitExt(r).1 == []
    requires Plain(b)
    ensures SplitExt(r + b) == (r + b, "")
  {
    RFindAppend(r, b, '.');
    RFindAppend(r, b, '/');
    assert RFind(b, '.') == -1 && RFind(b, '/') == -1;
  }

  /** A last path component that is plain text has no extension. */
  lemma NoExtensionInPlainComponent(a: string, c: string)
    requires Plain(c)
    ensures SplitExt(a + "/" + c) == (a + "/" + c, "")
  {
    RFindAppend(a + "/", c, '.');
    RFindAppend(a + "/", c, '/');
    RFindAppend(a, "/", '.');
    assert RFind(c, '.') == -1 && RFind(c, '/') == -1;
    assert RFind(a + "/", '/') == |a|;
  }
}

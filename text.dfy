/** The string primitives the source relies on: JavaScript's white-space
    classes (shared by `String.prototype.trim` and the regular-expression
    class `\s`) and upper-casing. */
module Text {

  /** The characters JavaScript's `trim` removes and `\s` matches: the
      WhiteSpace and LineTerminator code points of ECMAScript. */
  predicate IsWhitespace(c: char) {
    var n := c as int;
    n == 0x09 || n == 0x0A || n == 0x0B || n == 0x0C || n == 0x0D || n == 0x20
    || n == 0xA0 || n == 0x1680 || (0x2000 <= n <= 0x200A)
    || n == 0x2028 || n == 0x2029 || n == 0x202F || n == 0x205F
    || n == 0x3000 || n == 0xFEFF
  }

  /** `toUpperCase` on one character, for the ASCII letters. */
  function UpperChar(c: char): (u: char)
    ensures 'a' <= c <= 'z' ==> u as int == c as int - 32
    ensures !('a' <= c <= 'z') ==> u == c
  {
    if 'a' <= c <= 'z' then (c as int - 32) as char else c
  }

  function UpperAscii(s: string): (u: string)
    ensures |u| == |s|
    ensures forall i :: 0 <= i < |s| ==> u[i] == UpperChar(s[i])
  {
    if s == [] then [] else [UpperChar(s[0])] + UpperAscii(s[1..])
  }

  predicate NoLowerAscii(s: string) {
    forall i :: 0 <= i < |s| ==> !('a' <= s[i] <= 'z')
  }

  /** Upper-casing keeps white space where it is and leaves no lower-case letter. */
  lemma UpperKeepsWhitespace(c: char)
    ensures IsWhitespace(UpperChar(c)) <==> IsWhitespace(c)
  {
  }

  lemma UpperAsciiIdempotent(s: string)
    ensures UpperAscii(UpperAscii(s)) == UpperAscii(s)
    ensures NoLowerAscii(UpperAscii(s))
  {
    var u := UpperAscii(s);
    assert UpperAscii(u) == u by {
      forall i | 0 <= i < |u| ensures UpperAscii(u)[i] == u[i] {
        assert u[i] == UpperChar(s[i]);
      }
    }
  }

  /** `s.replace(/\s+/g, "")`. */
  function RemoveWhitespace(s: string): (r: string)
    ensures forall i :: 0 <= i < |r| ==> !IsWhitespace(r[i])
    ensures |r| <= |s|
  {
    if s == [] then []
    else if IsWhitespace(s[0]) then RemoveWhitespace(s[1..])
    else [s[0]] + RemoveWhitespace(s[1..])
  }

  function TrimStart(s: string): (r: string)
    ensures r == [] || !IsWhitespace(r[0])
    ensures |r| <= |s| && r == s[|s| - |r|..]
    ensures forall i :: 0 <= i < |s| - |r| ==> IsWhitespace(s[i])
  {
    if s != [] && IsWhitespace(s[0]) then TrimStart(s[1..]) else s
  }

  function TrimEnd(s: string): (r: string)
    ensures r == [] || !IsWhitespace(r[|r| - 1])
    ensures |r| <= |s| && r == s[..|r|]
    ensures forall i :: |r| <= i < |s| ==> IsWhitespace(s[i])
  {
    if s != [] && IsWhitespace(s[|s| - 1]) then TrimEnd(s[..|s| - 1]) else s
  }

  /** `String.prototype.trim`: the longest middle part of `s` that neither
      starts nor ends with white space, obtained by cutting white space only. */
  function Trim(s: string): (r: string)
    ensures r == [] || (!IsWhitespace(r[0]) && !IsWhitespace(r[|r| - 1]))
  {
    TrimEnd(TrimStart(s))
  }

  /** What `trim` cuts away is white space, from both ends only. */
  lemma TrimCutsWhitespace(s: string)
    ensures var r := Trim(s);
      exists i :: 0 <= i <= |s| && r <= s[i..]
        && (forall k :: 0 <= k < i ==> IsWhitespace(s[k]))
        && (forall k :: i + |r| <= k < |s| ==> IsWhitespace(s[k]))
  {
    var a := TrimStart(s);
    var r := TrimEnd(a);
    var i := |s| - |a|;
    assert r <= s[i..];
  }

  predicate IsTrimmed(s: string) {
    s == [] || (!IsWhitespace(s[0]) && !IsWhitespace(s[|s| - 1]))
  }

  /** Trimming a string that needs no trimming changes nothing. */
  lemma TrimOfTrimmed(s: string)
    requires IsTrimmed(s)
    ensures Trim(s) == s
  {
  }

  predicate AllWhitespace(s: string) {
    forall i :: 0 <= i < |s| ==> IsWhitespace(s[i])
  }

  /** Leading white space is invisible to `TrimStart`. */
  lemma {:induction false} TrimStartSkipsPrefix(pre: string, x: string)
    requires AllWhitespace(pre)
    ensures TrimStart(pre + x) == TrimStart(x)
  {
    if pre != [] {
      assert (pre + x)[0] == pre[0];
      assert (pre + x)[1..] == pre[1..] + x;
      TrimStartSkipsPrefix(pre[1..], x);
    } else {
      assert pre + x == x;
    }
  }

  /** Trailing white space survives `TrimStart` unless nothing else does. */
  lemma {:induction false} TrimStartKeepsSuffix(h: string, post: string)
    requires AllWhitespace(post)
    ensures TrimStart(h) == [] ==> TrimStart(h + post) == []
    ensures TrimStart(h) != [] ==> TrimStart(h + post) == TrimStart(h) + post
  {
    if h == [] {
      TrimStartSkipsPrefix(post, []);
      assert post + [] == post;
    } else if IsWhitespace(h[0]) {
      assert (h + post)[0] == h[0];
      assert (h + post)[1..] == h[1..] + post;
      TrimStartKeepsSuffix(h[1..], post);
    } else {
      assert (h + post)[0] == h[0];
    }
  }

  /** Trailing white space is invisible to `TrimEnd`. */
  lemma {:induction false} TrimEndSkipsSuffix(x: string, post: string)
    requires AllWhitespace(post)
    ensures TrimEnd(x + post) == TrimEnd(x)
  {
    if post != [] {
      var xp := x + post;
      assert xp[|xp| - 1] == post[|post| - 1];
      assert xp[..|xp| - 1] == x + post[..|post| - 1];
      TrimEndSkipsSuffix(x, post[..|post| - 1]);
    } else {
      assert x + post == x;
    }
  }

  /** `trim` ignores any white space added around its argument. */
  lemma TrimIgnoresPadding(pre: string, h: string, post: string)
    requires AllWhitespace(pre) && AllWhitespace(post)
    ensures Trim(pre + h + post) == Trim(h)
  {
    assert pre + h + post == pre + (h + post);
    TrimStartSkipsPrefix(pre, h + post);
    TrimStartKeepsSuffix(h, post);
    if TrimStart(h) != [] {
      TrimEndSkipsSuffix(TrimStart(h), post);
    }
  }
}

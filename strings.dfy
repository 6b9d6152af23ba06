/**
 * The string operations the classifier relies on: `String.prototype.trim`,
 * `toLowerCase` and `Array.prototype.join`. JavaScript's versions are
 * Unicode-aware; this module models them on ASCII (see README).
 */
module Strings {

  /** The ASCII characters `trim` removes: space, tab, LF, VT, FF and CR. */
  predicate IsSpace(c: char)
  {
    c == ' ' || c == '\t' || c == '\n' || c == '\U{000B}' || c == '\U{000C}' || c == '\r'
  }

  /** ASCII lower-casing of one character; every other character is kept. */
  function LowerChar(c: char): char
  {
    if 'A' <= c <= 'Z' then (c as int + 32) as char else c
  }

  /** `s.toLowerCase()`, character by character. */
  function Lower(s: string): (r: string)
    ensures |r| == |s|
    ensures forall i :: 0 <= i < |s| ==> r[i] == LowerChar(s[i])
  {
    if s == [] then [] else [LowerChar(s[0])] + Lower(s[1..])
  }

  /** Names of different lengths, or whose first letters differ ignoring case, stay different once lower-cased. */
  lemma LowerDiffers(a: string, b: string)
    requires |a| != |b| || (a != [] && b != [] && LowerChar(a[0]) != LowerChar(b[0]))
    ensures Lower(a) != Lower(b)
  {
    if |a| == |b| {
      assert Lower(a)[0] != Lower(b)[0];
    }
  }

  /** Drops the leading whitespace: the result is the suffix of `s` that starts at its first non-space. */
  function TrimStart(s: string): (r: string)
    ensures |r| <= |s| && r == s[|s| - |r|..]
    ensures forall i :: 0 <= i < |s| - |r| ==> IsSpace(s[i])
    ensures r != [] ==> !IsSpace(r[0])
  {
    if s != [] && IsSpace(s[0]) then TrimStart(s[1..]) else s
  }

  /** Drops the trailing whitespace: the result is the prefix of `s` that ends at its last non-space. */
  function TrimEnd(s: string): (r: string)
    ensures |r| <= |s| && r == s[..|r|]
    ensures forall i :: |r| <= i < |s| ==> IsSpace(s[i])
    ensures r != [] ==> !IsSpace(r[|r| - 1])
  {
    if s != [] && IsSpace(s[|s| - 1]) then TrimEnd(s[..|s| - 1]) else s
  }

  /** `s.trim()`: both ends of the result are non-space (see `TrimSlice` for what is cut off). */
  function Trim(s: string): (r: string)
    ensures r != [] ==> !IsSpace(r[0]) && !IsSpace(r[|r| - 1])
  {
    TrimEnd(TrimStart(s))
  }

  /** `s.trim()` is a contiguous slice of `s`, with only whitespace cut off either side. */
  lemma TrimSlice(s: string)
    ensures var r := Trim(s);
      exists i :: (0 <= i <= |s| - |r| && r == s[i..][..|r|] &&
                   AllSpace(s[..i]) && AllSpace(s[i..][|r|..]))
  {
    var t := TrimStart(s);
    var r := TrimEnd(t);
    var i := |s| - |t|;
    assert t == s[i..];
    assert r == t[..|r|];
    assert AllSpace(s[..i]) by {
      forall k | 0 <= k < i
        ensures IsSpace(s[..i][k])
      {
        assert s[..i][k] == s[k];
      }
    }
    assert AllSpace(t[|r|..]) by {
      forall k | 0 <= k < |t| - |r|
        ensures IsSpace(t[|r|..][k])
      {
        assert t[|r|..][k] == t[|r| + k];
      }
    }
  }

  predicate AllSpace(s: string)
  {
    forall k :: 0 <= k < |s| ==> IsSpace(s[k])
  }

  lemma {:induction false} TrimStartPadded(pre: string, s: string)
    requires AllSpace(pre)
    requires s != [] ==> !IsSpace(s[0])
    ensures TrimStart(pre + s) == s
  {
    if pre != [] {
      assert (pre + s)[1..] == pre[1..] + s;
      TrimStartPadded(pre[1..], s);
    } else {
      assert pre + s == s;
    }
  }

  lemma {:induction false} TrimEndPadded(s: string, post: string)
    requires AllSpace(post)
    requires s != [] ==> !IsSpace(s[|s| - 1])
    ensures TrimEnd(s + post) == s
  {
    if post != [] {
      var n := |post| - 1;
      assert (s + post)[..|s + post| - 1] == s + post[..n];
      TrimEndPadded(s, post[..n]);
    } else {
      assert s + post == s;
    }
  }

  /** Trim is exactly "remove the whitespace padding": it recovers any word padded with whitespace. */
  lemma TrimPadded(pre: string, s: string, post: string)
    requires AllSpace(pre) && AllSpace(post)
    requires s != [] ==> !IsSpace(s[0]) && !IsSpace(s[|s| - 1])
    ensures Trim(pre + s + post) == s
  {
    assert pre + s + post == pre + (s + post);
    if s == [] {
      assert AllSpace(s + post) by { assert s + post == post; }
      TrimStartPadded(pre + s + post, []);
      assert pre + s + post + [] == pre + s + post;
      TrimEndPadded([], []);
    } else {
      TrimStartPadded(pre, s + post);
      TrimEndPadded(s, post);
    }
  }

  /** `xs.join(sep)`: the elements in order with `sep` between neighbours. */
  function Join(xs: seq<string>, sep: string): string
  {
    if xs == [] then ""
    else if |xs| == 1 then xs[0]
    else xs[0] + sep + Join(xs[1..], sep)
  }

  /** Joining one more element appends the separator and that element, so the order of `xs` is kept. */
  lemma {:induction false} JoinAppend(xs: seq<string>, x: string, sep: string)
    requires xs != []
    ensures Join(xs + [x], sep) == Join(xs, sep) + sep + x
  {
    if |xs| == 1 {
      assert (xs + [x])[1..] == [x];
    } else {
      assert (xs + [x])[1..] == xs[1..] + [x];
      JoinAppend(xs[1..], x, sep);
    }
  }
}

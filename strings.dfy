/** The functions of Go's strings package that the middlewares and readJSON call. */
module Strings {

  /** strings.HasPrefix: case-sensitive, an empty prefix matches every string. */
  predicate HasPrefix(s: string, prefix: string)
  {
    |prefix| <= |s| && s[..|prefix|] == prefix
  }

  /** unicode.IsSpace, which strings.TrimSpace uses: the ASCII white space, NEL, NBSP
      and the Unicode space separators. */
  predicate IsSpace(c: char)
  {
    c == ' ' || c == '\t' || c == '\n' || c == '\r' || c == '\U{B}' || c == '\U{C}'
    || c == '\U{85}' || c == '\U{A0}' || c == '\U{1680}' || ('\U{2000}' <= c <= '\U{200A}')
    || c == '\U{2028}' || c == '\U{2029}' || c == '\U{202F}' || c == '\U{205F}' || c == '\U{3000}'
  }

  /** The number of white-space characters s starts with. */
  function LeadingSpaces(s: string): (k: nat)
    ensures k <= |s|
  {
    if s != "" && IsSpace(s[0]) then 1 + LeadingSpaces(s[1..]) else 0
  }

  /** The number of white-space characters s ends with. */
  function TrailingSpaces(s: string): (k: nat)
    ensures k <= |s|
  {
    if s != "" && IsSpace(s[|s| - 1]) then 1 + TrailingSpaces(s[..|s| - 1]) else 0
  }

  /** strings.TrimSpace: drop leading and trailing white space. */
  function TrimSpace(s: string): string
  {
    var l := s[LeadingSpaces(s)..];
    l[..|l| - TrailingSpaces(l)]
  }

  /** unicode.ToLower restricted to what can matter when the result is compared with
      an ASCII string: ASCII capitals, and the two non-ASCII letters whose lower case
      is ASCII (U+0130 to 'i', the Kelvin sign U+212A to 'k'). */
  function LowerChar(c: char): char
  {
    if 'A' <= c <= 'Z' then (c as int + 32) as char
    else if c == '\U{130}' then 'i'
    else if c == '\U{212A}' then 'k'
    else c
  }

  predicate IsUpperAscii(c: char)
  {
    'A' <= c <= 'Z'
  }

  /** strings.ToLower, with the letter mapping of LowerChar. */
  function ToLower(s: string): string
  {
    seq(|s|, i requires 0 <= i < |s| => LowerChar(s[i]))
  }

  /** The index of the first sep in s, or |s| when there is none. */
  function IndexOf(s: string, sep: char): (k: nat)
    ensures k <= |s|
  {
    if s == "" || s[0] == sep then 0 else 1 + IndexOf(s[1..], sep)
  }

  /** strings.Split(s, sep)[0]: the text before the first sep, or all of s. */
  function BeforeFirst(s: string, sep: char): string
  {
    s[..IndexOf(s, sep)]
  }

  lemma {:induction false} IndexOfSpec(s: string, sep: char)
    ensures forall i :: 0 <= i < IndexOf(s, sep) ==> s[i] != sep
    ensures IndexOf(s, sep) < |s| ==> s[IndexOf(s, sep)] == sep
    decreases |s|
  {
    if s != "" && s[0] != sep {
      IndexOfSpec(s[1..], sep);
    }
  }

  lemma {:induction false} LeadingSpacesSpec(s: string)
    ensures LeadingSpaces(s) < |s| ==> !IsSpace(s[LeadingSpaces(s)])
    decreases |s|
  {
    if s != "" && IsSpace(s[0]) {
      LeadingSpacesSpec(s[1..]);
    }
  }

  lemma {:induction false} TrailingSpacesSpec(s: string)
    ensures TrailingSpaces(s) < |s| ==> !IsSpace(s[|s| - 1 - TrailingSpaces(s)])
    decreases |s|
  {
    if s != "" && IsSpace(s[|s| - 1]) {
      TrailingSpacesSpec(s[..|s| - 1]);
    }
  }

  lemma TrimSpaceUnchanged(s: string)
    requires s == "" || (!IsSpace(s[0]) && !IsSpace(s[|s| - 1]))
    ensures TrimSpace(s) == s
  {
  }

  lemma ToLowerUnchanged(s: string)
    requires forall i :: 0 <= i < |s| ==> LowerChar(s[i]) == s[i]
    ensures ToLower(s) == s
  {
  }

  lemma BeforeFirstAbsent(s: string, sep: char)
    requires sep !in s
    ensures BeforeFirst(s, sep) == s
  {
    IndexOfSpec(s, sep);
  }

  lemma LowerKeepsNonSpace(c: char)
    requires !IsSpace(c)
    ensures !IsSpace(LowerChar(c)) && !IsUpperAscii(LowerChar(c))
  {
  }

  /** The characters LeadingSpaces counts are white space. */
  lemma {:induction false} LeadingAllSpace(s: string)
    ensures forall i :: 0 <= i < LeadingSpaces(s) ==> IsSpace(s[i])
    decreases |s|
  {
    if s != "" && IsSpace(s[0]) {
      LeadingAllSpace(s[1..]);
    }
  }

  /** The characters TrailingSpaces counts are white space. */
  lemma {:induction false} TrailingAllSpace(s: string)
    ensures forall i :: |s| - TrailingSpaces(s) <= i < |s| ==> IsSpace(s[i])
    decreases |s|
  {
    if s != "" && IsSpace(s[|s| - 1]) {
      TrailingAllSpace(s[..|s| - 1]);
    }
  }

  /** TrimSpace keeps the slice of s left once the white space at both ends is cut, and
      that slice has no white space at either end. */
  lemma TrimSpaceShape(s: string)
    ensures exists a, b ::
              && 0 <= a <= b <= |s| && TrimSpace(s) == s[a..b]
              && (forall i :: 0 <= i < a ==> IsSpace(s[i]))
              && (forall i :: b <= i < |s| ==> IsSpace(s[i]))
    ensures forall i :: 0 <= i < |TrimSpace(s)| ==> TrimSpace(s)[i] in s
    ensures TrimSpace(s) == "" || (!IsSpace(TrimSpace(s)[0]) && !IsSpace(TrimSpace(s)[|TrimSpace(s)| - 1]))
  {
    var a := LeadingSpaces(s);
    var l := s[a..];
    var b := TrailingSpaces(l);
    var t := l[..|l| - b];
    LeadingSpacesSpec(s);
    TrailingSpacesSpec(l);
    LeadingAllSpace(s);
    TrailingAllSpace(l);
    var e := a + |l| - b;
    assert t == s[a..e];
    assert forall i :: e <= i < |s| ==> IsSpace(s[i]) by {
      forall i | e <= i < |s|
        ensures IsSpace(s[i])
      {
        assert s[i] == l[i - a];
      }
    }
    forall i | 0 <= i < |t|
      ensures t[i] in s
    {
      assert t[i] == s[a + i];
    }
  }

  /** Removing white space from the end of a string that ends in a non-space. */
  lemma {:induction false} TrailingPadding(core: string, pad: string)
    requires core != "" && !IsSpace(core[|core| - 1])
    requires forall i :: 0 <= i < |pad| ==> IsSpace(pad[i])
    ensures TrailingSpaces(core + pad) == |pad|
    decreases |pad|
  {
    if pad == [] {
      assert core + pad == core;
    } else {
      assert (core + pad)[..|core + pad| - 1] == core + pad[..|pad| - 1];
      TrailingPadding(core, pad[..|pad| - 1]);
    }
  }

  lemma ToLowerMatches(s: string, target: string)
    requires |s| == |target|
    requires forall i :: 0 <= i < |s| ==> LowerChar(s[i]) == target[i]
    ensures ToLower(s) == target
  {
  }

  lemma {:induction false} IndexOfAppend(t: string, sep: char, rest: string)
    requires sep !in t
    ensures IndexOf(t + [sep] + rest, sep) == |t|
    decreases |t|
  {
    if t != "" {
      assert (t + [sep] + rest)[1..] == t[1..] + [sep] + rest;
      IndexOfAppend(t[1..], sep, rest);
    }
  }

  lemma BeforeFirstAppend(t: string, sep: char, rest: string)
    requires sep !in t
    ensures BeforeFirst(t + [sep] + rest, sep) == t
  {
    IndexOfAppend(t, sep, rest);
    assert (t + [sep] + rest)[..|t|] == t;
  }

  /** White space in front of a string that starts with a non-space. */
  lemma {:induction false} LeadingPadding(pre: string, t: string)
    requires t != "" && !IsSpace(t[0])
    requires forall i :: 0 <= i < |pre| ==> IsSpace(pre[i])
    ensures LeadingSpaces(pre + t) == |pre|
    decreases |pre|
  {
    if pre == [] {
      assert pre + t == t;
    } else {
      assert (pre + t)[1..] == pre[1..] + t;
      LeadingPadding(pre[1..], t);
    }
  }

  /** The text before the first separator, once trimmed, is the core it was padded
      around, with white space on either side. */
  lemma TrimmedBeforeFirst(pre: string, core: string, pad: string, sep: char, rest: string)
    requires sep !in core && !IsSpace(sep) && core != "" && !IsSpace(core[0]) && !IsSpace(core[|core| - 1])
    requires forall i :: 0 <= i < |pre| ==> IsSpace(pre[i])
    requires forall i :: 0 <= i < |pad| ==> IsSpace(pad[i])
    ensures TrimSpace(BeforeFirst(pre + core + pad + [sep] + rest, sep)) == core
  {
    var cp := core + pad;
    var x := pre + cp;
    assert sep !in x by {
      assert forall i :: 0 <= i < |x| ==> x[i] != sep;
    }
    assert pre + core + pad + [sep] + rest == x + [sep] + rest;
    BeforeFirstAppend(x, sep, rest);
    assert cp[0] == core[0];
    LeadingPadding(pre, cp);
    assert x[|pre|..] == cp;
    TrailingPadding(core, pad);
    assert cp[..|cp| - |pad|] == core;
  }
}

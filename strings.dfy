/** The few Python `str` operations the modelled code relies on, with the
    exact semantics of CPython for the cases that occur (single-character
    separators, out-of-range slices). */
module Strings {

  /** `c.isspace()` for the characters CPython counts as whitespace. */
  predicate IsSpace(c: char)
  {
    c == ' ' || c == '\t' || c == '\n' || c == '\r' || c == '\U{000B}' || c == '\U{000C}'
    || ('\U{001C}' <= c <= '\U{001F}') || c == '\U{0085}' || c == '\U{00A0}' || c == '\U{1680}'
    || ('\U{2000}' <= c <= '\U{200A}') || c == '\U{2028}' || c == '\U{2029}'
    || c == '\U{202F}' || c == '\U{205F}' || c == '\U{3000}'
  }

  /** `s.lstrip()`: the suffix of `s` left after dropping leading whitespace. */
  function StripLeft(s: string): (r: string)
    ensures |r| <= |s| && r == s[|s| - |r|..]
    ensures r == [] || !IsSpace(r[0])
    ensures forall k :: 0 <= k < |s| - |r| ==> IsSpace(s[k])
  {
    if |s| > 0 && IsSpace(s[0]) then StripLeft(s[1..]) else s
  }

  /** `s.rstrip()`: the prefix of `s` left after dropping trailing whitespace. */
  function StripRight(s: string): (r: string)
    ensures |r| <= |s| && r == s[..|r|]
    ensures r == [] || !IsSpace(r[|r| - 1])
    ensures forall k :: |r| <= k < |s| ==> IsSpace(s[k])
  {
    if |s| > 0 && IsSpace(s[|s| - 1]) then StripRight(s[..|s| - 1]) else s
  }

  /** `s.strip()`. */
  function Strip(s: string): (r: string)
    ensures r == [] || (!IsSpace(r[0]) && !IsSpace(r[|r| - 1]))
  {
    StripRight(StripLeft(s))
  }

  predicate StartsWith(s: string, prefix: string)
  {
    |prefix| <= |s| && s[..|prefix|] == prefix
  }

  predicate EndsWith(s: string, suffix: string)
  {
    |suffix| <= |s| && s[|s| - |suffix|..] == suffix
  }

  /** `sub in s` for strings. */
  predicate Contains(s: string, sub: string)
  {
    StartsWith(s, sub) || (|s| > 0 && Contains(s[1..], sub))
  }

  /** Number of occurrences of `c` in `s`. */
  function Count(s: string, c: char): nat
  {
    if s == [] then 0 else (if s[0] == c then 1 else 0) + Count(s[1..], c)
  }

  lemma {:induction false} CountZero(s: string, c: char)
    ensures Count(s, c) == 0 <==> c !in s
  {
    if s != [] { CountZero(s[1..], c); }
  }

  /** `s.replace(c, '')` for a single character `c`. */
  function Remove(s: string, c: char): (r: string)
    ensures c !in r
    ensures forall x :: x in r <==> x in s && x != c
  {
    if s == [] then [] else (if s[0] == c then [] else [s[0]]) + Remove(s[1..], c)
  }

  /** Joins `parts` with `sep` between consecutive elements (`sep.join(parts)`). */
  function Join(parts: seq<string>, sep: char): string
  {
    if parts == [] then [] else if |parts| == 1 then parts[0] else parts[0] + [sep] + Join(parts[1..], sep)
  }

  /** `s.split(sep)` for a one-character separator: never empty, no piece holds
      the separator, there is one more piece than separators, and joining the
      pieces gives back `s`. */
  function Split(s: string, sep: char): (r: seq<string>)
    ensures |r| == Count(s, sep) + 1
    ensures forall k :: 0 <= k < |r| ==> sep !in r[k]
    ensures Join(r, sep) == s
  {
    if s == [] then [[]]
    else
      var rest := Split(s[1..], sep);
      if s[0] == sep then [[]] + rest
      else
        assert [s[0]] + rest[0] + [sep] + Join(rest[1..], sep) == [s[0]] + (rest[0] + [sep] + Join(rest[1..], sep));
        [[s[0]] + rest[0]] + rest[1..]
  }

  /** `s[1:]`: empty on the empty string. */
  function Tail(s: string): (r: string)
    ensures |s| > 0 ==> r == s[1..]
    ensures |s| == 0 ==> r == []
  {
    if |s| == 0 then [] else s[1..]
  }

  /** `s[:-k]` for `k >= 0`: `s[:-0]` is `s[:0]`, the empty string, and a `k`
      beyond the length clips to the empty string as well. */
  function DropLast(s: string, k: nat): (r: string)
    ensures 0 < k <= |s| ==> r == s[..|s| - k]
    ensures k == 0 || k >= |s| ==> r == []
  {
    if k == 0 || k >= |s| then [] else s[..|s| - k]
  }

  /** No character of `s` is whitespace. */
  predicate NoSpace(s: string)
  {
    forall i :: 0 <= i < |s| ==> !IsSpace(s[i])
  }

  /** A string with no whitespace at either end is its own `strip()`. */
  lemma StripUnchanged(s: string)
    requires s == [] || (!IsSpace(s[0]) && !IsSpace(s[|s| - 1]))
    ensures Strip(s) == s
  {
  }

  /** `strip()` only removes characters. */
  lemma StripChars(s: string, c: char)
    ensures c in Strip(s) ==> c in s
  {
    var l := StripLeft(s);
    if c in Strip(s) {
      var k :| 0 <= k < |Strip(s)| && Strip(s)[k] == c;
      assert l[k] == c;
      assert s[|s| - |l| + k] == c;
    }
  }

  lemma {:induction false} CountAppend(a: string, b: string, c: char)
    ensures Count(a + b, c) == Count(a, c) + Count(b, c)
  {
    if a == [] {
      assert a + b == b;
    } else {
      assert (a + b)[1..] == a[1..] + b;
      CountAppend(a[1..], b, c);
    }
  }

  /** Without the separator, `split` gives the whole string back. */
  lemma {:induction false} SplitNone(s: string, sep: char)
    requires sep !in s
    ensures Split(s, sep) == [s]
  {
    if s != [] {
      SplitNone(s[1..], sep);
    }
  }

  /** The first piece of `split` is the text before the first separator. */
  lemma {:induction false} SplitFirst(pre: string, sep: char, s: string)
    requires sep !in pre
    ensures Split(pre + [sep] + s, sep) == [pre] + Split(s, sep)
  {
    if pre == [] {
      assert pre + [sep] + s == [sep] + s;
      assert ([sep] + s)[1..] == s;
    } else {
      assert (pre + [sep] + s)[1..] == pre[1..] + [sep] + s;
      SplitFirst(pre[1..], sep, s);
      assert [pre[0]] + pre[1..] == pre;
    }
  }

  /** A piece of `split` holds only characters of the string. */
  lemma {:induction false} SplitChars(s: string, sep: char, k: nat, c: char)
    requires k < |Split(s, sep)|
    ensures c in Split(s, sep)[k] ==> c in s
  {
    if s != [] {
      var rest := Split(s[1..], sep);
      if s[0] == sep {
        if k > 0 {
          SplitChars(s[1..], sep, k - 1, c);
        }
      } else if k == 0 {
        if c in Split(s, sep)[0] && c != s[0] {
          assert c in rest[0];
          SplitChars(s[1..], sep, 0, c);
        }
      } else {
        SplitChars(s[1..], sep, k, c);
      }
    }
  }
}

/** The JavaScript string built-ins the extension relies on, with their exact
    edge-case behaviour: `indexOf` answering -1, `substring` clamping its
    arguments to the string and swapping them when start > end, `split` on a
    literal separator, `join`, and global / first-match `replace` with a
    literal pattern. A JavaScript string is a sequence of UTF-16 code units;
    here it is a Dafny `string`, whose characters are Unicode scalar values,
    so the two agree on text in which every character is one code unit. */
module JsString {

  /** `pat` occurs in `s` at index `j`. */
  predicate Occurs(s: string, pat: string, j: int)
  {
    0 <= j && j + |pat| <= |s| && s[j..j + |pat|] == pat
  }

  /** `s.indexOf(pat, k)` for a start position already inside the string. */
  function IndexOfFrom(s: string, pat: string, k: nat): (r: int)
    requires k <= |s|
    ensures r == -1 || (k <= r && Occurs(s, pat, r))
    ensures forall j :: k <= j && (r == -1 || j < r) ==> !Occurs(s, pat, j)
    decreases |s| - k
  {
    if k + |pat| > |s| then -1
    else if s[k..k + |pat|] == pat then k
    else IndexOfFrom(s, pat, k + 1)
  }

  /** Position clamping shared by `indexOf` and `substring`. */
  function Clamp(i: int, n: nat): (r: nat)
    ensures r <= n
  {
    if i < 0 then 0 else if i > n then n else i
  }

  /** `s.indexOf(pat, from)`: the start is clamped into [0, |s|]. */
  function IndexOf(s: string, pat: string, from: int): int
  {
    IndexOfFrom(s, pat, Clamp(from, |s|))
  }

  /** `s.substring(start, end)`: both ends clamped into [0, |s|], then
      swapped if start > end. */
  function Substring(s: string, start: int, end: int): string
  {
    var a, b := Clamp(start, |s|), Clamp(end, |s|);
    if a <= b then s[a..b] else s[b..a]
  }

  /** `s.startsWith(p)`. */
  predicate StartsWith(s: string, p: string)
  {
    |p| <= |s| && s[..|p|] == p
  }

  /** `parts.join(sep)`. */
  function Join(parts: seq<string>, sep: string): string
  {
    if |parts| == 0 then ""
    else if |parts| == 1 then parts[0]
    else parts[0] + sep + Join(parts[1..], sep)
  }

  /** `parts.join("")`. */
  function Concat(parts: seq<string>): string
  {
    if |parts| == 0 then "" else parts[0] + Concat(parts[1..])
  }

  /** A separator-free piece. */
  predicate Free(s: string, sep: string)
  {
    forall j :: 0 <= j <= |s| ==> !Occurs(s, sep, j)
  }

  lemma PrefixBeforeFirstIsFree(s: string, sep: string, i: nat)
    requires |sep| > 0 && i <= |s|
    requires forall j :: 0 <= j < i ==> !Occurs(s, sep, j)
    ensures Free(s[..i], sep)
  {
    forall j | 0 <= j <= i
      ensures !Occurs(s[..i], sep, j)
    {
      if j + |sep| <= i {
        assert s[..i][j..j + |sep|] == s[j..j + |sep|];
        assert !Occurs(s, sep, j);
      }
    }
  }

  /** `s.split(sep)` for a non-empty literal separator: the pieces between
      the occurrences of `sep`, found left to right. Joining them back with
      `sep` gives `s`, and no piece contains `sep`. */
  function Split(s: string, sep: string): (parts: seq<string>)
    requires |sep| > 0
    ensures |parts| >= 1
    ensures Join(parts, sep) == s
    ensures forall k :: 0 <= k < |parts| ==> Free(parts[k], sep)
    decreases |s|
  {
    var i := IndexOfFrom(s, sep, 0);
    if i == -1 then
      PrefixBeforeFirstIsFree(s, sep, |s|);
      assert s[..|s|] == s;
      [s]
    else
      PrefixBeforeFirstIsFree(s, sep, i);
      var tail := Split(s[i + |sep|..], sep);
      assert s == s[..i] + sep + s[i + |sep|..] by {
        assert s[i..i + |sep|] == sep;
      }
      [s[..i]] + tail
  }

  /** A piece without the separator is split into itself. */
  lemma {:induction false} SplitFree(s: string, sep: string)
    requires |sep| > 0 && Free(s, sep)
    ensures Split(s, sep) == [s]
  {
  }

  /** Splitting on a one-character separator peels off the text before its
      first occurrence. */
  lemma {:induction false} SplitCons(p: string, c: char, q: string)
    requires c !in p
    ensures Split(p + [c] + q, [c]) == [p] + Split(q, [c])
  {
    var s := p + [c] + q;
    assert Occurs(s, [c], |p|) by {
      assert s[|p|..|p| + 1] == [c];
    }
    forall j | 0 <= j < |p|
      ensures !Occurs(s, [c], j)
    {
      assert s[j..j + 1] == [p[j]];
    }
    assert IndexOfFrom(s, [c], 0) == |p|;
    assert s[..|p|] == p;
    assert s[|p| + 1..] == q;
  }

  /** For a one-character separator, "free" means the character is absent. */
  lemma FreeChar(s: string, c: char)
    ensures Free(s, [c]) <==> c !in s
  {
    forall j | 0 <= j < |s|
      ensures Occurs(s, [c], j) <==> s[j] == c
    {
      assert s[j..j + 1] == [s[j]];
    }
  }

  /** `s.indexOf(c)` for one character: -1 exactly when `c` is absent,
      otherwise the position of its first occurrence. */
  lemma {:induction false} IndexOfChar(s: string, c: char, k: nat)
    requires k <= |s|
    ensures var i := IndexOfFrom(s, [c], k);
      && (i == -1 <==> c !in s[k..])
      && (i != -1 ==> k <= i < |s| && s[i] == c && c !in s[k..i])
    decreases |s| - k
  {
    if k < |s| {
      assert s[k..k + 1] == [s[k]];
      assert s[k..] == [s[k]] + s[k + 1..];
      if s[k] != c {
        IndexOfChar(s, c, k + 1);
        var i := IndexOfFrom(s, [c], k + 1);
        if i != -1 {
          assert s[k..i] == [s[k]] + s[k + 1..i];
        }
      }
    }
  }

  /** The first occurrence of `c` at or after `k` is at `e`. */
  lemma FirstCharAt(s: string, c: char, k: nat, e: nat)
    requires k <= e < |s| && s[e] == c && c !in s[k..e]
    ensures IndexOfFrom(s, [c], k) == e
  {
    IndexOfChar(s, c, k);
    var i := IndexOfFrom(s, [c], k);
    assert s[k..][e - k] == c;
    forall j | k <= j < e
      ensures s[j] != c
    {
      assert s[k..e][j - k] == s[j];
    }
    forall j | k <= j < i
      ensures s[j] != c
    {
      assert s[k..i][j - k] == s[j];
    }
  }

  /** Without `c` after `k`, `indexOf` answers -1. */
  lemma NoCharAfter(s: string, c: char, k: nat)
    requires k <= |s| && c !in s[k..]
    ensures IndexOfFrom(s, [c], k) == -1
  {
    IndexOfChar(s, c, k);
  }

  /** `s.replace(/pat/g, rep)` for a literal pattern: occurrences are
      replaced left to right without overlap. */
  function ReplaceAll(s: string, pat: string, rep: string): string
    requires |pat| > 0
    decreases |s|
  {
    if |s| < |pat| then s
    else if s[..|pat|] == pat then rep + ReplaceAll(s[|pat|..], pat, rep)
    else [s[0]] + ReplaceAll(s[1..], pat, rep)
  }

  /** `s.replace(pat, rep)` with a literal string pattern: only the first
      occurrence is replaced. */
  function ReplaceFirst(s: string, pat: string, rep: string): (r: string)
    requires |pat| > 0
    ensures !Free(s, pat) || r == s
  {
    var i := IndexOfFrom(s, pat, 0);
    if i == -1 then s else s[..i] + rep + s[i + |pat|..]
  }

  /** ASCII lower-casing, which is what `toLowerCase` does on `[A-Za-z0-9_]`. */
  function LowerChar(c: char): char
  {
    if 'A' <= c <= 'Z' then (c as int + 32) as char else c
  }

  function ToLower(s: string): (r: string)
    ensures |r| == |s|
    ensures forall i :: 0 <= i < |s| ==> r[i] == LowerChar(s[i])
  {
    seq(|s|, i requires 0 <= i < |s| => LowerChar(s[i]))
  }

  predicate IsDigit(c: char)
  {
    '0' <= c <= '9'
  }

  function DigitChar(d: int): char
    requires 0 <= d < 10
  {
    (d + '0' as int) as char
  }

  /** `String(n)` for a non-negative integer. */
  function NatToString(n: nat): (r: string)
    ensures |r| >= 1
    ensures forall i :: 0 <= i < |r| ==> IsDigit(r[i])
  {
    if n < 10 then [DigitChar(n)] else NatToString(n / 10) + [DigitChar(n % 10)]
  }

  /** `String(n)` for any integer. */
  function IntToString(n: int): string
  {
    if n < 0 then "-" + NatToString(-n) else NatToString(n)
  }

  /** `str.padStart(2, "0")`. */
  function PadStart2(s: string): (r: string)
    ensures |r| == if |s| < 2 then 2 else |s|
  {
    if |s| == 0 then "00" else if |s| == 1 then "0" + s else s
  }

  const TwoTo32 := 0x1_0000_0000

  /** The ToInt32 conversion applied by the bitwise operators: the integer
      taken modulo 2^32 into the signed range. */
  function ToInt32(x: int): (r: int)
    ensures -0x8000_0000 <= r < 0x8000_0000
  {
    var m := x % TwoTo32;
    if m < 0x8000_0000 then m else m - TwoTo32
  }

  /** A value already in range is kept. */
  lemma ToInt32Small(x: int)
    requires 0 <= x < 0x8000_0000
    ensures ToInt32(x) == x
  {
  }

  /** ToInt32 changes its argument by a multiple of 2^32. */
  lemma ToInt32Congruent(x: int)
    ensures (ToInt32(x) - x) % TwoTo32 == 0
  {
    var q := x / TwoTo32;
    assert x == TwoTo32 * q + x % TwoTo32;
    if x % TwoTo32 < 0x8000_0000 {
      assert ToInt32(x) - x == TwoTo32 * (-q);
    } else {
      assert ToInt32(x) - x == TwoTo32 * (-q - 1);
    }
  }

  /** The remainder `a % b` of JavaScript for a positive divisor: it takes
      the sign of the dividend. */
  function JsRem(a: int, b: int): (r: int)
    requires b > 0
    ensures -b < r < b
    ensures a >= 0 ==> r == a % b
  {
    if a >= 0 then a % b else -((-a) % b)
  }
}

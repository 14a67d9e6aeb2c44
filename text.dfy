/**
 * The operations of Python's `str` type that the metadata loader relies on:
 * `isspace`, `strip`, `upper`, `lower`, `split`, `find`, and `os.path.basename`.
 * Case mapping covers ASCII letters only.
 */
module Text {

  /** Python's `str.isspace()` for one character: what `strip()` removes. */
  predicate IsSpace(c: char) {
    var n := c as int;
    n == 0x20 || 0x09 <= n <= 0x0d || 0x1c <= n <= 0x1f || n == 0x85 || n == 0xa0 || n == 0x1680
    || 0x2000 <= n <= 0x200a || n == 0x2028 || n == 0x2029 || n == 0x202f || n == 0x205f || n == 0x3000
  }

  function LowerChar(c: char): (r: char)
    ensures !('A' <= r <= 'Z')
    ensures if 'A' <= c <= 'Z' then 'a' <= r <= 'z' else r == c
  {
    if 'A' <= c <= 'Z' then (c as int + 32) as char else c
  }

  function UpperChar(c: char): (r: char)
    ensures !('a' <= r <= 'z')
  {
    if 'a' <= c <= 'z' then (c as int - 32) as char else c
  }

  /** `s.lower()` */
  function Lower(s: string): (r: string)
    ensures |r| == |s| && forall i :: 0 <= i < |s| ==> r[i] == LowerChar(s[i])
  {
    if s == [] then [] else [LowerChar(s[0])] + Lower(s[1..])
  }

  /** `s.upper()` */
  function Upper(s: string): (r: string)
    ensures |r| == |s| && forall i :: 0 <= i < |s| ==> r[i] == UpperChar(s[i])
    ensures NoLowerCase(r)
  {
    if s == [] then [] else [UpperChar(s[0])] + Upper(s[1..])
  }

  /** No lower-case ASCII letter in `s`. */
  predicate NoLowerCase(s: string) {
    forall i :: 0 <= i < |s| ==> !('a' <= s[i] <= 'z')
  }

  lemma {:induction false} UpperOfUpperCase(s: string)
    requires NoLowerCase(s)
    ensures Upper(s) == s
  {
  }

  lemma {:induction false} UpperOfLower(s: string)
    ensures Upper(Lower(s)) == Upper(s)
  {
  }

  /** `s.lstrip()`: the longest suffix of `s` that does not start with whitespace (`StripLeftIsSuffix`). */
  function StripLeft(s: string): (r: string)
    ensures |r| <= |s|
    ensures r == [] || !IsSpace(r[0])
    ensures forall i :: 0 <= i < |s| - |r| ==> IsSpace(s[i])
    decreases |s|
  {
    if s != [] && IsSpace(s[0]) then StripLeft(s[1..]) else s
  }

  /** What `lstrip()` keeps is a suffix of `s`. */
  lemma {:induction false} StripLeftIsSuffix(s: string)
    ensures StripLeft(s) == s[|s| - |StripLeft(s)|..]
    decreases |s|
  {
    if s != [] && IsSpace(s[0]) {
      StripLeftIsSuffix(s[1..]);
    }
  }

  /** `s.rstrip()`: the longest prefix of `s` that does not end with whitespace (`StripRightIsPrefix`). */
  function StripRight(s: string): (r: string)
    ensures |r| <= |s|
    ensures r == [] || !IsSpace(r[|r| - 1])
    ensures forall i :: |r| <= i < |s| ==> IsSpace(s[i])
    decreases |s|
  {
    if s != [] && IsSpace(s[|s| - 1]) then StripRight(s[..|s| - 1]) else s
  }

  /** What `rstrip()` keeps is a prefix of `s`. */
  lemma {:induction false} StripRightIsPrefix(s: string)
    ensures StripRight(s) == s[..|StripRight(s)|]
    decreases |s|
  {
    if s != [] && IsSpace(s[|s| - 1]) {
      StripRightIsPrefix(s[..|s| - 1]);
    }
  }

  /** Neither end of `s` is whitespace. */
  predicate Trimmed(s: string) {
    s == [] || (!IsSpace(s[0]) && !IsSpace(s[|s| - 1]))
  }

  /** `s.strip()` */
  function Strip(s: string): (r: string)
    ensures Trimmed(r) && |r| <= |s|
    ensures forall c :: c in r ==> c in s
  {
    var l := StripLeft(s);
    StripLeftIsSuffix(s);
    StripRightIsPrefix(l);
    StripRight(l)
  }

  /** `strip()` keeps a contiguous part of `s`, from where `lstrip()` starts. */
  lemma StripIsSlice(s: string)
    ensures var a := |s| - |StripLeft(s)|;
      a + |Strip(s)| <= |s| && Strip(s) == s[a..a + |Strip(s)|]
  {
    StripLeftIsSuffix(s);
    StripRightIsPrefix(StripLeft(s));
  }

  /** `s.strip()` is empty exactly when `s` is all whitespace. */
  lemma {:induction false} StripEmptyIffBlank(s: string)
    ensures Strip(s) == [] <==> forall i :: 0 <= i < |s| ==> IsSpace(s[i])
  {
    var l := StripLeft(s);
    StripLeftIsSuffix(s);
    if StripRight(l) == [] {
      assert l == [];
    }
  }

  lemma {:induction false} StripTrimmed(s: string)
    requires Trimmed(s)
    ensures Strip(s) == s
  {
    assert StripLeft(s) == s;
    assert StripRight(s) == s;
  }

  lemma {:induction false} StripLeftPadding(a: string, y: string)
    requires forall i :: 0 <= i < |a| ==> IsSpace(a[i])
    requires y == [] || !IsSpace(y[0])
    ensures StripLeft(a + y) == y
    decreases |a|
  {
    if a != [] {
      assert (a + y)[1..] == a[1..] + y;
      StripLeftPadding(a[1..], y);
    } else {
      assert a + y == y;
    }
  }

  lemma {:induction false} StripRightPadding(y: string, b: string)
    requires forall i :: 0 <= i < |b| ==> IsSpace(b[i])
    requires y == [] || !IsSpace(y[|y| - 1])
    ensures StripRight(y + b) == y
    decreases |b|
  {
    if b != [] {
      assert (y + b)[..|y + b| - 1] == y + b[..|b| - 1];
      StripRightPadding(y, b[..|b| - 1]);
    } else {
      assert y + b == y;
    }
  }

  /** `strip()` removes exactly the whitespace around a trimmed text. */
  lemma {:induction false} StripPadding(a: string, x: string, b: string)
    requires forall i :: 0 <= i < |a| ==> IsSpace(a[i])
    requires forall i :: 0 <= i < |b| ==> IsSpace(b[i])
    requires x != [] && Trimmed(x)
    ensures Strip(a + x + b) == x
  {
    assert a + x + b == a + (x + b);
    StripLeftPadding(a, x + b);
    StripRightPadding(x, b);
  }

  /** The index of the first `c` in `s`. */
  function IndexOf(s: string, c: char): (i: nat)
    requires c in s
    ensures i < |s| && s[i] == c && c !in s[..i]
    decreases |s|
  {
    if s[0] == c then 0
    else
      var j := IndexOf(s[1..], c);
      assert s[..j + 1] == [s[0]] + s[1..][..j];
      j + 1
  }

  /** `sep.join(parts)` */
  function Join(parts: seq<string>, sep: char): string
    requires |parts| >= 1
    decreases |parts|
  {
    if |parts| == 1 then parts[0] else parts[0] + [sep] + Join(parts[1..], sep)
  }

  /** `s.split(sep)`: the pieces between the occurrences of `sep`, never an empty list. */
  function Split(s: string, sep: char): (parts: seq<string>)
    ensures |parts| >= 1
    ensures forall i :: 0 <= i < |parts| ==> sep !in parts[i]
    ensures Join(parts, sep) == s
    decreases |s|
  {
    if sep !in s then [s]
    else
      var i := IndexOf(s, sep);
      var rest := Split(s[i + 1..], sep);
      assert ([s[..i]] + rest)[1..] == rest;
      assert s == s[..i] + [sep] + s[i + 1..];
      [s[..i]] + rest
  }

  /** Splitting a piece that holds no separator, followed by the separator, yields that piece first. */
  lemma {:induction false} SplitAfterPiece(x: string, sep: char, y: string)
    requires sep !in x
    ensures Split(x + [sep] + y, sep) == [x] + Split(y, sep)
  {
    var s := x + [sep] + y;
    assert s[|x|] == sep;
    var i := IndexOf(s, sep);
    assert s[..i] == x;
    assert s[i + 1..] == y;
  }

  /** `split` inverts `join` for pieces that do not contain the separator. */
  lemma {:induction false} SplitJoin(parts: seq<string>, sep: char)
    requires |parts| >= 1
    requires forall i :: 0 <= i < |parts| ==> sep !in parts[i]
    ensures Split(Join(parts, sep), sep) == parts
    decreases |parts|
  {
    if |parts| > 1 {
      SplitAfterPiece(parts[0], sep, Join(parts[1..], sep));
      SplitJoin(parts[1..], sep);
      assert parts == [parts[0]] + parts[1..];
    }
  }

  /** `s.split(sep)[0]` is `s` cut just before its first `sep`. */
  lemma {:induction false} FirstPiece(s: string, sep: char)
    ensures var r := Split(s, sep)[0];
      |r| <= |s| && r == s[..|r|] && sep !in r && (|r| == |s| || s[|r|] == sep)
  {
  }

  /** `sub` occurs in `s` at index `j`. */
  predicate OccursAt(s: string, sub: string, j: nat) {
    j + |sub| <= |s| && s[j..j + |sub|] == sub
  }

  /** `s.find(sub, i)`: the lowest index from `i` on where `sub` occurs, or -1. */
  function FindFrom(s: string, sub: string, i: nat): (k: int)
    requires i <= |s|
    ensures k == -1 || (i <= k && OccursAt(s, sub, k))
    ensures forall j: nat :: i <= j && (k == -1 || j < k) ==> !OccursAt(s, sub, j)
    decreases |s| - i
  {
    if i + |sub| > |s| then -1
    else if s[i..i + |sub|] == sub then i
    else FindFrom(s, sub, i + 1)
  }

  /** `s.find(sub)` */
  function Find(s: string, sub: string): int {
    FindFrom(s, sub, 0)
  }

  /** `s.find(sub) == 0` exactly when `s` starts with `sub`. */
  lemma FindZeroIffPrefix(s: string, sub: string)
    ensures Find(s, sub) == 0 <==> |sub| <= |s| && s[..|sub|] == sub
  {
  }

  /** `os.path.basename(p)` with `/` as the separator: the longest suffix free of `/` (`BasenameIsLastPart`). */
  function Basename(p: string): (b: string)
    ensures '/' !in b && |b| <= |p|
    decreases |p|
  {
    if p == [] || p[|p| - 1] == '/' then [] else Basename(p[..|p| - 1]) + [p[|p| - 1]]
  }

  /** The base name is what follows the last `/`, or all of `p` when it has none. */
  lemma {:induction false} BasenameIsLastPart(p: string)
    ensures var b := Basename(p);
      b == p[|p| - |b|..] && (|b| < |p| ==> p[|p| - |b| - 1] == '/')
    decreases |p|
  {
    if p != [] && p[|p| - 1] != '/' {
      var q := p[..|p| - 1];
      BasenameIsLastPart(q);
      var b := Basename(q);
      assert q[|q| - |b|..] + [p[|p| - 1]] == p[|p| - |b| - 1..];
    }
  }
}

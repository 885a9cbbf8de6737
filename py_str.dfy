/**
 * The Python `str` operations the handlers use, with CPython's semantics:
 * `sub in s`, `s.find(sub, start)`, slicing `s[i:j]` with negative and
 * out-of-range indices, `strip()`, and the ASCII part of `lower()`/`upper()`.
 */
module PyStr {

  /** Python's `str.isspace()` for one character: the characters `strip()` removes. */
  predicate IsSpace(c: char) {
    var n := c as int;
    (9 <= n <= 13) || (28 <= n <= 32) || n == 0x85 || n == 0xA0 || n == 0x1680
    || (0x2000 <= n <= 0x200A) || n == 0x2028 || n == 0x2029 || n == 0x202F
    || n == 0x205F || n == 0x3000
  }

  predicate AllSpace(s: string) {
    forall k :: 0 <= k < |s| ==> IsSpace(s[k])
  }

  /** Neither end of `s` is whitespace: `strip()` has nothing to remove. */
  predicate Stripped(s: string) {
    s == [] || (!IsSpace(s[0]) && !IsSpace(s[|s| - 1]))
  }

  /** `sub` occurs in `s` starting at index `i`. */
  predicate OccursAt(s: string, sub: string, i: int) {
    0 <= i && i + |sub| <= |s| && s[i..i + |sub|] == sub
  }

  /** The start index `s.find(sub, start)` really searches from (negative counts from the end). */
  function FindStart(s: string, start: int): (i: nat)
    ensures start >= 0 ==> i == start
  {
    if start >= 0 then start else if start + |s| < 0 then 0 else start + |s|
  }

  /** Python's `s.find(sub, start)`: the first occurrence at or after `start`, or -1. */
  function Find(s: string, sub: string, start: int): (r: int)
    ensures r == -1 || (FindStart(s, start) <= r && OccursAt(s, sub, r))
    decreases |s| - FindStart(s, start)
  {
    var i := FindStart(s, start);
    if i + |sub| > |s| then -1
    else if s[i..i + |sub|] == sub then i
    else Find(s, sub, i + 1)
  }

  /** `find` returns the first occurrence: none lies between the start and the result, and -1 means none at all. */
  lemma {:induction false} FindFirst(s: string, sub: string, start: int)
    ensures Find(s, sub, start) != -1 ==>
      forall i :: FindStart(s, start) <= i < Find(s, sub, start) ==> !OccursAt(s, sub, i)
    ensures Find(s, sub, start) == -1 ==> forall i :: FindStart(s, start) <= i ==> !OccursAt(s, sub, i)
    decreases |s| - FindStart(s, start)
  {
    var i := FindStart(s, start);
    if i + |sub| <= |s| && s[i..i + |sub|] != sub {
      FindFirst(s, sub, i + 1);
    }
  }

  /** Python's `sub in s`. */
  predicate Contains(s: string, sub: string) {
    Find(s, sub, 0) >= 0
  }

  /** `sub in s` holds exactly when `sub` occurs somewhere in `s`. */
  lemma ContainsIff(s: string, sub: string)
    ensures Contains(s, sub) <==> exists i :: OccursAt(s, sub, i)
  {
    FindFirst(s, sub, 0);
    if !Contains(s, sub) {
      forall i ensures !OccursAt(s, sub, i) {
        if 0 <= i {
          assert FindStart(s, 0) <= i;
        }
      }
    }
  }

  /** The first occurrence of `sub` at or after `start` is at `i`, so that is what `find` returns. */
  lemma FindIs(s: string, sub: string, start: nat, i: int)
    requires start <= i && OccursAt(s, sub, i)
    requires forall j :: start <= j < i ==> !OccursAt(s, sub, j)
    ensures Find(s, sub, start) == i
  {
    FindFirst(s, sub, start);
  }

  /** A one-character `sub in s` is membership of that character. */
  lemma ContainsChar(s: string, c: char)
    ensures Contains(s, [c]) <==> c in s
  {
    ContainsIff(s, [c]);
    if c in s {
      var k :| 0 <= k < |s| && s[k] == c;
      assert s[k..k + 1] == [c];
      assert OccursAt(s, [c], k);
    }
    if Contains(s, [c]) {
      var k :| OccursAt(s, [c], k);
      assert s[k] == s[k..k + 1][0];
    }
  }

  /** CPython's clamping of one slice bound against a length `n`. */
  function SliceIndex(n: nat, i: int): (r: nat)
    ensures r <= n
    ensures 0 <= i <= n ==> r == i
    ensures i < 0 && -i <= n ==> r == n + i
  {
    if i < 0 then (if i + n < 0 then 0 else i + n)
    else if i > n then n
    else i
  }

  /** Python's `s[start:stop]`. */
  function PySlice(s: string, start: int, stop: int): (r: string)
    ensures |r| <= |s|
    ensures 0 <= start <= stop <= |s| ==> r == s[start..stop]
    ensures 0 <= start <= |s| && stop == -1 ==> r == if start < |s| - 1 then s[start..|s| - 1] else []
  {
    var lo, hi := SliceIndex(|s|, start), SliceIndex(|s|, stop);
    if lo < hi then s[lo..hi] else []
  }

  /** Python's `s.lstrip()`: the suffix left after removing leading whitespace. */
  function LStrip(s: string): (r: string)
    ensures |r| <= |s|
  {
    if s != [] && IsSpace(s[0]) then LStrip(s[1..]) else s
  }

  /** `lstrip()` removes a whitespace prefix and stops at the first other character. */
  lemma {:induction false} LStripSpec(s: string)
    ensures LStrip(s) == s[|s| - |LStrip(s)|..]
    ensures AllSpace(s[..|s| - |LStrip(s)|])
    ensures LStrip(s) != [] ==> !IsSpace(LStrip(s)[0])
  {
    if s != [] && IsSpace(s[0]) {
      var r := LStrip(s[1..]);
      LStripSpec(s[1..]);
      assert s[..|s| - |r|] == [s[0]] + s[1..][..|s| - 1 - |r|];
    }
  }

  /** Python's `s.rstrip()`: the prefix left after removing trailing whitespace. */
  function RStrip(s: string): (r: string)
    ensures |r| <= |s|
  {
    if s != [] && IsSpace(s[|s| - 1]) then RStrip(s[..|s| - 1]) else s
  }

  /** `rstrip()` removes a whitespace suffix and stops at the last other character. */
  lemma {:induction false} RStripSpec(s: string)
    ensures RStrip(s) == s[..|RStrip(s)|]
    ensures AllSpace(s[|RStrip(s)|..])
    ensures RStrip(s) != [] ==> !IsSpace(RStrip(s)[|RStrip(s)| - 1])
  {
    if s != [] && IsSpace(s[|s| - 1]) {
      var r := RStrip(s[..|s| - 1]);
      RStripSpec(s[..|s| - 1]);
      assert s[|r|..] == s[..|s| - 1][|r|..] + [s[|s| - 1]];
    }
  }

  /** Python's `s.strip()`. */
  function Strip(s: string): string {
    RStrip(LStrip(s))
  }

  /** `strip()` leaves no whitespace at either end, and leaves nothing exactly when the text is all whitespace. */
  lemma StripSpec(s: string)
    ensures |Strip(s)| <= |s| && Stripped(Strip(s))
    ensures Strip(s) == [] <==> AllSpace(s)
  {
    var l := LStrip(s);
    var r := RStrip(l);
    LStripSpec(s);
    RStripSpec(l);
    assert r != [] ==> r[0] == l[0];
    if l != [] {
      assert s[|s| - |l|] == l[0];
    }
  }

  /** Whitespace around a stripped text is all that `strip()` removes. */
  lemma {:induction false} StripPadded(a: string, p: string, b: string)
    requires AllSpace(a) && AllSpace(b) && Stripped(p)
    ensures Strip(a + p + b) == p
  {
    var s := a + p + b;
    var l := LStrip(s);
    LStripSpec(s);
    var m := |s| - |l|;
    if p == [] {
      StripSpec(s);
      assert AllSpace(s) by {
        forall k | 0 <= k < |s| ensures IsSpace(s[k]) {
          if k < |a| { assert s[k] == a[k]; } else { assert s[k] == b[k - |a|]; }
        }
      }
    } else {
      assert s[|a|] == p[0];
      assert m <= |a|;
      assert m == |a| by {
        assert forall k :: 0 <= k < |a| ==> s[k] == a[k];
      }
      assert l == p + b;
      var r := RStrip(l);
      RStripSpec(l);
      assert l[|p| - 1] == p[|p| - 1];
      assert |r| == |p| by {
        assert forall k :: |p| <= k < |l| ==> l[k] == b[k - |p|];
      }
      assert r == l[..|p|] == p;
    }
  }

  function LowerChar(c: char): char {
    if 'A' <= c <= 'Z' then (c as int + 32) as char else c
  }

  function UpperChar(c: char): char {
    if 'a' <= c <= 'z' then (c as int - 32) as char else c
  }

  /** `s.lower()` on the ASCII letters; every other character is kept. */
  function Lower(s: string): (r: string)
    ensures |r| == |s| && forall k :: 0 <= k < |s| ==> r[k] == LowerChar(s[k])
  {
    seq(|s|, k requires 0 <= k < |s| => LowerChar(s[k]))
  }

  /** `s.upper()` on the ASCII letters; every other character is kept. */
  function Upper(s: string): (r: string)
    ensures |r| == |s| && forall k :: 0 <= k < |s| ==> r[k] == UpperChar(s[k])
  {
    seq(|s|, k requires 0 <= k < |s| => UpperChar(s[k]))
  }

  /** No ASCII lower-case letter occurs in `s`. */
  predicate NoLowerAscii(s: string) {
    forall k :: 0 <= k < |s| ==> !('a' <= s[k] <= 'z')
  }

  /** Upper-casing leaves no lower-case ASCII letter and keeps the text empty exactly when it was. */
  lemma UpperIsUpper(s: string)
    ensures NoLowerAscii(Upper(s))
    ensures Upper(s) == [] <==> s == []
  {
  }
}

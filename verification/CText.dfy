/**
 C strings held in memory. A `char` stands for one byte; memory is a sequence
 of bytes, and the string at an offset runs up to the first NUL byte.
 */
module CText {

  const NUL: char := '\0'

  /** isspace in the "C" locale. */
  predicate IsSpace(c: char) {
    c in [' ', '\t', '\n', '\U{0b}', '\U{0c}', '\r']
  }

  predicate IsDigit(c: char) {
    '0' <= c <= '9'
  }

  predicate NoNul(s: string) {
    NUL !in s
  }

  predicate AllSpace(s: string) {
    forall i :: 0 <= i < |s| ==> IsSpace(s[i])
  }

  predicate AllDigits(s: string) {
    forall i :: 0 <= i < |s| ==> IsDigit(s[i])
  }

  /** The bytes of `s` before its first NUL, or all of `s` when it has none. */
  function UpToNul(s: string): (r: string)
    ensures r <= s && NoNul(r)
    ensures |r| < |s| ==> s[|r|] == NUL
  {
    if s == "" || s[0] == NUL then "" else [s[0]] + UpToNul(s[1..])
  }

  /** The facts `UpToNul` promises leave only one possible result. */
  lemma {:induction false} UpToNulUnique(s: string, r: string)
    requires r <= s && NoNul(r)
    requires |r| < |s| ==> s[|r|] == NUL
    ensures UpToNul(s) == r
  {
    if r != "" {
      assert r == [s[0]] + r[1..];
      UpToNulUnique(s[1..], r[1..]);
    }
  }

  /** The C string that starts at offset `p` of `mem`. */
  function StrAt(mem: string, p: nat): (r: string)
    requires p <= |mem|
    ensures NoNul(r) && p + |r| <= |mem| && r == mem[p..p + |r|]
    ensures p + |r| < |mem| ==> mem[p + |r|] == NUL
  {
    UpToNul(mem[p..])
  }

  /** A NUL-free stretch of memory that ends in a NUL is the string there. */
  lemma StrAtIs(mem: string, p: nat, r: string)
    requires p + |r| < |mem| && mem[p..p + |r|] == r && NoNul(r)
    requires mem[p + |r|] == NUL
    ensures StrAt(mem, p) == r
  {
    assert r <= mem[p..] by {
      assert mem[p..][..|r|] == mem[p..p + |r|];
    }
    UpToNulUnique(mem[p..], r);
  }

  /** Memory that agrees on a string and on its NUL holds the same string there. */
  lemma StrAtFrame(mem: string, mem': string, p: nat)
    requires p <= |mem| == |mem'|
    requires p + |StrAt(mem, p)| < |mem|
    requires mem[p..p + |StrAt(mem, p)| + 1] == mem'[p..p + |StrAt(mem, p)| + 1]
    ensures StrAt(mem', p) == StrAt(mem, p)
  {
    var r := StrAt(mem, p);
    var n := p + |r|;
    assert mem'[n] == mem'[p..n + 1][|r|] == mem[p..n + 1][|r|] == mem[n] == NUL;
    assert mem'[p..n] == mem'[p..n + 1][..|r|] == mem[p..n + 1][..|r|] == mem[p..n];
    StrAtIs(mem', p, r);
  }

  /** A suffix of a C string is the C string at the matching offset. */
  lemma StrAtSuffix(mem: string, p: nat, k: nat)
    requires p <= |mem| && k <= |StrAt(mem, p)| && p + |StrAt(mem, p)| < |mem|
    ensures StrAt(mem, p + k) == StrAt(mem, p)[k..]
  {
    var s := StrAt(mem, p);
    assert mem[p + k..p + |s|] == s[k..];
    StrAtIs(mem, p + k, s[k..]);
  }

  /** The index of the first `c` in `s`, or |s|. */
  function FirstOf(s: string, c: char): (n: nat)
    ensures n <= |s| && c !in s[..n]
    ensures n < |s| ==> s[n] == c
  {
    if s == "" || s[0] == c then 0 else 1 + FirstOf(s[1..], c)
  }

  lemma {:induction false} FirstOfAfter(x: string, y: string, c: char)
    requires c !in x
    ensures FirstOf(x + y, c) == |x| + FirstOf(y, c)
  {
    if x == "" {
      assert x + y == y;
    } else {
      assert (x + y)[1..] == x[1..] + y;
      FirstOfAfter(x[1..], y, c);
    }
  }
}

/** What the whole model shares: optional values in place of nil pointers and ignored errors, the 64-bit
    integers of the host, and text compared without regard to case. */
module Wrappers {
  datatype Option<+T> = None | Some(value: T)

  const TWO63 := 0x8000_0000_0000_0000

  type int64 = n: int | -TWO63 <= n < TWO63

  /** The 64-bit value of an integer that may not fit. */
  function Wrap64(n: int): int64 {
    (n + TWO63) % (2 * TWO63) - TWO63
  }

  /** Addition as a 64-bit signed integer does it. */
  function Plus64(a: int64, b: int64): (n: int64)
    ensures n == if a + b >= TWO63 then a + b - 2 * TWO63 else if a + b < -TWO63 then a + b + 2 * TWO63 else a + b
  {
    Wrap64(a + b)
  }

  function Lower(c: char): char {
    if 'A' <= c <= 'Z' then ((c as int) + 32) as char else c
  }

  /** strings.EqualFold on ASCII text. */
  predicate EqualFold(s: string, t: string) {
    |s| == |t| && forall i :: 0 <= i < |s| ==> Lower(s[i]) == Lower(t[i])
  }

  /** The characters differ in nothing but a letter's case. */
  predicate CaseOnly(c: char, d: char) {
    c == d || ('A' <= c <= 'Z' && d as int == c as int + 32) || ('A' <= d <= 'Z' && c as int == d as int + 32)
  }

  lemma FoldsCaseOnly(s: string, t: string)
    ensures EqualFold(s, t) <==> |s| == |t| && forall i :: 0 <= i < |s| ==> CaseOnly(s[i], t[i])
  {
    if EqualFold(s, t) {
      forall i | 0 <= i < |s|
        ensures CaseOnly(s[i], t[i])
      {
        assert Lower(s[i]) == Lower(t[i]);
      }
    }
    if |s| == |t| && forall i :: 0 <= i < |s| ==> CaseOnly(s[i], t[i]) {
      forall i | 0 <= i < |s|
        ensures Lower(s[i]) == Lower(t[i])
      {
        assert CaseOnly(s[i], t[i]);
      }
    }
  }
}

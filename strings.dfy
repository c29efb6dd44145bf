/** The two functions of Go's strings package that the proof-of-work check uses. */
module Strings {

  /** strings.Repeat: count copies of s (Go panics on a negative count). */
  function Repeat(s: string, count: nat): string
    decreases count
  {
    if count == 0 then "" else s + Repeat(s, count - 1)
  }

  /** strings.HasPrefix. */
  predicate HasPrefix(s: string, prefix: string) {
    |prefix| <= |s| && s[..|prefix|] == prefix
  }

  /** Repeating a one-character string n times gives n copies of that character. */
  lemma {:induction false} RepeatChar(c: char, n: nat)
    ensures |Repeat([c], n)| == n
    ensures forall k :: 0 <= k < n ==> Repeat([c], n)[k] == c
    decreases n
  {
    if n > 0 {
      RepeatChar(c, n - 1);
    }
  }

  /** A string starts with n copies of c exactly when its first n characters are c. */
  lemma RepeatedCharPrefix(s: string, c: char, n: nat)
    ensures HasPrefix(s, Repeat([c], n)) <==> n <= |s| && forall k :: 0 <= k < n ==> s[k] == c
  {
    RepeatChar(c, n);
    if n <= |s| && forall k :: 0 <= k < n ==> s[k] == c {
      assert s[..n] == Repeat([c], n);
    }
  }
}

/** Strings that end at the first NUL character of a buffer. */
module CStrings {

  const NUL: char := '\0'

  predicate NoNul(s: string) {
    forall i :: 0 <= i < |s| ==> s[i] != NUL
  }

  /** Position of the terminator; the length if there is none. */
  function Terminator(s: seq<char>): (n: nat)
    ensures n <= |s| && NoNul(s[..n]) && (n < |s| ==> s[n] == NUL)
  {
    if s == [] || s[0] == NUL then 0
    else
      var n := 1 + Terminator(s[1..]);
      assert s[..n] == [s[0]] + s[1..][..n - 1];
      n
  }

  /** The string a buffer holds. */
  function Held(s: seq<char>): string {
    s[..Terminator(s)]
  }

  lemma {:induction false} TerminatorUnique(s: seq<char>, n: nat)
    requires n < |s| && s[n] == NUL && NoNul(s[..n])
    ensures Terminator(s) == n
  {
    if n > 0 {
      assert s[0] == s[..n][0];
      assert s[1..][..n - 1] == s[..n][1..];
      TerminatorUnique(s[1..], n - 1);
    }
  }

  lemma HoldsPrefix(s: seq<char>, t: string)
    requires |t| < |s| && s[..|t|] == t && s[|t|] == NUL && NoNul(t)
    ensures Held(s) == t
  {
    TerminatorUnique(s, |t|);
  }
}

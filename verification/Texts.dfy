/** Strings as Python and SQLite treat them: which characters are blank, and how texts are ordered. */
module Texts {
  /** str.isspace of a single character. */
  predicate IsSpace(c: char) {
    var n := c as int;
    || 9 <= n <= 13 || 28 <= n <= 32 || n == 0x85 || n == 0xA0 || n == 0x1680
    || 0x2000 <= n <= 0x200A || n == 0x2028 || n == 0x2029 || n == 0x202F || n == 0x205F || n == 0x3000
  }

  /** Nothing is left after strip(). */
  predicate Blank(s: string) {
    forall i :: 0 <= i < |s| ==> IsSpace(s[i])
  }

  /** The order of ORDER BY on texts: by the first character that differs, a prefix first. */
  predicate LexLess(s: string, t: string) {
    t != [] && (s == [] || s[0] < t[0] || (s[0] == t[0] && LexLess(s[1..], t[1..])))
  }

  /** Up to this place the texts agree; here the first one ends or has the smaller character. */
  predicate DiffersAt(s: string, t: string, k: nat) {
    k <= |s| && k < |t| && s[..k] == t[..k] && (k == |s| || s[k] < t[k])
  }

  lemma DiffersHead(s: string, t: string, k: nat)
    requires DiffersAt(s, t, k)
    ensures k == 0 || (s != [] && t != [] && s[0] == t[0])
  {
    if k > 0 { assert s[..k][0] == t[..k][0]; }
  }

  lemma {:induction false} LexLessIff(s: string, t: string)
    ensures LexLess(s, t) <==> exists k: nat :: DiffersAt(s, t, k)
    decreases |s|
  {
    if t != [] && s != [] && s[0] == t[0] {
      LexLessIff(s[1..], t[1..]);
      if k: nat :| DiffersAt(s[1..], t[1..], k) {
        assert s[..k + 1] == [s[0]] + s[1..][..k] && t[..k + 1] == [t[0]] + t[1..][..k];
        assert DiffersAt(s, t, k + 1);
      }
      if k: nat :| DiffersAt(s, t, k) {
        if k == 0 { assert false; }
        assert s[..k][1..] == s[1..][..k - 1] && t[..k][1..] == t[1..][..k - 1];
        assert DiffersAt(s[1..], t[1..], k - 1);
      }
    } else {
      if t != [] && (s == [] || s[0] < t[0]) { assert DiffersAt(s, t, 0); }
      if k: nat :| DiffersAt(s, t, k) {
        DiffersHead(s, t, k);
      }
    }
  }

  lemma {:induction false} LexTransitive(s: string, t: string, u: string)
    requires LexLess(s, t) && LexLess(t, u)
    ensures LexLess(s, u)
    decreases |s|
  {
    if s != [] && s[0] == t[0] == u[0] { LexTransitive(s[1..], t[1..], u[1..]); }
  }

  /** Two texts neither of which comes first are the same text, and no text comes before itself. */
  lemma {:induction false} LexTotal(s: string, t: string)
    ensures LexLess(s, t) || LexLess(t, s) || s == t
    ensures !(LexLess(s, t) && LexLess(t, s))
    decreases |s|
  {
    if s != [] && t != [] {
      LexTotal(s[1..], t[1..]);
      if s[0] == t[0] && s[1..] == t[1..] { assert s == [s[0]] + s[1..] == t; }
    }
  }
}

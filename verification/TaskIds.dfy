/** Printed task ids: the project, "-T", and the number padded to three digits. */
module TaskIds {
  predicate Digits(s: string) {
    forall i :: 0 <= i < |s| ==> '0' <= s[i] <= '9'
  }

  function Value(s: string): nat
    requires Digits(s)
  {
    if s == [] then 0 else 10 * Value(s[..|s| - 1]) + (s[|s| - 1] - '0') as nat
  }

  function Decimal(n: nat): (s: string)
    ensures Digits(s) && s != [] && Value(s) == n
  {
    var last := ['0' + (n % 10) as char];
    if n < 10 then last
    else
      var s := Decimal(n / 10) + last;
      assert s[..|s| - 1] == Decimal(n / 10);
      s
  }

  function Padded(n: nat): (s: string)
    ensures Digits(s) && |s| >= 3
  {
    var s := Decimal(n);
    if |s| == 1 then "00" + s else if |s| == 2 then "0" + s else s
  }

  function TaskId(project: string, n: nat): string {
    project + "-T" + Padded(n)
  }

  lemma {:induction false} LeadingZero(s: string)
    requires Digits(s)
    ensures Digits("0" + s) && Value("0" + s) == Value(s)
  {
    if s == [] {
      assert ("0" + s)[..0] == [];
    } else {
      LeadingZero(s[..|s| - 1]);
      assert ("0" + s)[..|s|] == "0" + s[..|s| - 1];
    }
  }

  lemma PaddedValue(n: nat)
    ensures Value(Padded(n)) == n
  {
    var s := Decimal(n);
    LeadingZero(s);
    if |s| == 1 {
      LeadingZero("0" + s);
      assert "0" + ("0" + s) == "00" + s;
    }
  }

  lemma LastTEndsProject(p: string, d: string, q: string, e: string)
    requires Digits(d) && Digits(e) && p + "-T" + d == q + "-T" + e
    ensures |p| <= |q|
  {
    var s := q + "-T" + e;
    assert s[|p| + 1] == 'T' by { assert (p + "-T" + d)[|p| + 1] == 'T'; }
    assert s[|q| + 2..] == e;
    assert forall k :: |q| + 2 <= k < |s| ==> s[k] == s[|q| + 2..][k - (|q| + 2)];
  }

  /** How ids are printed: the project, "-T", and the number in decimal with at least three digits. */
  lemma TaskIdPrints(project: string, n: nat) returns (digits: string)
    ensures TaskId(project, n) == project + "-T" + digits && Digits(digits) && |digits| >= 3 && Value(digits) == n
  {
    digits := Padded(n);
    PaddedValue(n);
  }

  /** A printed id determines both its project and its number. */
  lemma TaskIdInjective(p: string, m: nat, q: string, n: nat)
    requires TaskId(p, m) == TaskId(q, n)
    ensures p == q && m == n
  {
    var d, e, s := Padded(m), Padded(n), TaskId(p, m);
    LastTEndsProject(p, d, q, e);
    LastTEndsProject(q, e, p, d);
    assert p == s[..|p|] == q;
    assert d == s[|p| + 2..] == e;
    PaddedValue(m);
    PaddedValue(n);
  }
}

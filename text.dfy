// Case-insensitive text comparison, as used for file names and directories
// throughout the synchronisation checklist (AnsiCompareText / SameText).
// Collation is ordinal after upper-casing the ASCII letters.

module Text {

  /** Upper-case an ASCII letter; every other character is kept. */
  function UpperChar(c: char): (r: char)
    ensures 'a' <= c <= 'z' ==> r as int == c as int - 32
    ensures !('a' <= c <= 'z') ==> r == c
  {
    if 'a' <= c <= 'z' then (c as int - 32) as char else c
  }

  /** The case-folded form under which two names are compared. */
  function Fold(s: string): (r: string)
    ensures |r| == |s|
    ensures forall i :: 0 <= i < |s| ==> r[i] == UpperChar(s[i])
  {
    if s == [] then [] else [UpperChar(s[0])] + Fold(s[1..])
  }

  /** Three-way lexicographic comparison of two character sequences. */
  function CompareSeq(a: string, b: string): (r: int)
    ensures -1 <= r <= 1
    ensures r == 0 <==> a == b
  {
    if a == [] then (if b == [] then 0 else -1)
    else if b == [] then 1
    else if a[0] < b[0] then -1
    else if a[0] > b[0] then 1
    else
      var r := CompareSeq(a[1..], b[1..]);
      assert r == 0 ==> a == [a[0]] + a[1..] == [b[0]] + b[1..] == b;
      r
  }

  /** AnsiCompareText: negative, zero or positive as `a` sorts before,
      together with, or after `b`, ignoring letter case. */
  function CompareText(a: string, b: string): (r: int)
    ensures -1 <= r <= 1
    ensures r == 0 <==> Fold(a) == Fold(b)
  {
    CompareSeq(Fold(a), Fold(b))
  }

  /** SameText: equality ignoring letter case. */
  predicate SameText(a: string, b: string)
  {
    Fold(a) == Fold(b)
  }

  lemma {:induction false} CompareSeqAntisymmetric(a: string, b: string)
    ensures CompareSeq(a, b) == -CompareSeq(b, a)
    decreases |a|
  {
    if a != [] && b != [] && a[0] == b[0] {
      CompareSeqAntisymmetric(a[1..], b[1..]);
    }
  }

  lemma {:induction false} CompareSeqTransitive(a: string, b: string, c: string)
    requires CompareSeq(a, b) <= 0 && CompareSeq(b, c) <= 0
    ensures CompareSeq(a, c) <= 0
    decreases |a|
  {
    if a != [] && b != [] && c != [] && a[0] == b[0] == c[0] {
      CompareSeqTransitive(a[1..], b[1..], c[1..]);
    }
  }

  /** CompareText is a total preorder: swapping the arguments flips the sign. */
  lemma CompareTextAntisymmetric(a: string, b: string)
    ensures CompareText(a, b) == -CompareText(b, a)
  {
    CompareSeqAntisymmetric(Fold(a), Fold(b));
  }

  /** CompareText is a total preorder: "sorts no later than" is transitive. */
  lemma CompareTextTransitive(a: string, b: string, c: string)
    requires CompareText(a, b) <= 0 && CompareText(b, c) <= 0
    ensures CompareText(a, c) <= 0
  {
    CompareSeqTransitive(Fold(a), Fold(b), Fold(c));
  }

  /** Names that differ only in letter case compare equal. */
  lemma CompareTextIgnoresCase(a: string, b: string)
    requires |a| == |b|
    requires forall i :: 0 <= i < |a| ==> UpperChar(a[i]) == UpperChar(b[i])
    ensures CompareText(a, b) == 0
  {
    assert Fold(a) == Fold(b);
  }
}

/** The order Python uses to compare two `str` values: lexicographic by code
    point, where a proper prefix comes before any of its extensions. */
module LexOrder {

  /** `a <= b` on Python strings: `a` is a prefix of `b`, or at the first
      position where they differ `a` has the smaller code point. */
  predicate LexLe(a: string, b: string)
    ensures LexLe(a, b) <==> a <= b || exists k :: FirstDifferenceBelow(a, b, k)
    decreases |a|
  {
    if a == [] then true
    else if b == [] then false
    else if a[0] != b[0] then
      FirstDifferenceAtHead(a, b);
      a[0] < b[0]
    else
      FirstDifferenceInTail(a, b);
      LexLe(a[1..], b[1..])
  }

  /** `a` and `b` agree before position `k`, and there `a` is smaller. */
  predicate FirstDifferenceBelow(a: string, b: string, k: int) {
    0 <= k < |a| && k < |b| && a[..k] == b[..k] && a[k] < b[k]
  }

  lemma FirstDifferenceAtHead(a: string, b: string)
    requires a != [] && b != [] && a[0] != b[0]
    ensures !(a <= b)
    ensures (exists k :: FirstDifferenceBelow(a, b, k)) <==> a[0] < b[0]
  {
    if a[0] < b[0] {
      assert FirstDifferenceBelow(a, b, 0);
    }
    forall k | FirstDifferenceBelow(a, b, k)
      ensures a[0] < b[0]
    {
      if k > 0 {
        assert a[..k][0] == b[..k][0];
      }
    }
  }

  lemma FirstDifferenceInTail(a: string, b: string)
    requires a != [] && b != [] && a[0] == b[0]
    ensures a <= b <==> a[1..] <= b[1..]
    ensures (exists k :: FirstDifferenceBelow(a, b, k)) <==> (exists k :: FirstDifferenceBelow(a[1..], b[1..], k))
  {
    assert a == [a[0]] + a[1..] && b == [b[0]] + b[1..];
    forall k | FirstDifferenceBelow(a, b, k)
      ensures FirstDifferenceBelow(a[1..], b[1..], k - 1)
    {
      assert k != 0;
      assert a[1..][..k - 1] == a[..k][1..];
      assert b[1..][..k - 1] == b[..k][1..];
    }
    forall k | FirstDifferenceBelow(a[1..], b[1..], k)
      ensures FirstDifferenceBelow(a, b, k + 1)
    {
      assert a[..k + 1] == [a[0]] + a[1..][..k];
      assert b[..k + 1] == [b[0]] + b[1..][..k];
    }
  }

  lemma LexLeReflexive(a: string)
    ensures LexLe(a, a)
  {
  }

  lemma {:induction false} LexLeTotal(a: string, b: string)
    ensures LexLe(a, b) || LexLe(b, a)
    decreases |a|
  {
    if a != [] && b != [] && a[0] == b[0] {
      LexLeTotal(a[1..], b[1..]);
    }
  }

  lemma LexLeAntisymmetric(a: string, b: string)
    requires LexLe(a, b) && LexLe(b, a)
    ensures a == b
  {
  }

  lemma {:induction false} LexLeTransitive(a: string, b: string, c: string)
    requires LexLe(a, b) && LexLe(b, c)
    ensures LexLe(a, c)
    decreases |a|
  {
    if a != [] && b != [] && c != [] && a[0] == b[0] && b[0] == c[0] {
      LexLeTransitive(a[1..], b[1..], c[1..]);
    }
  }

  /** A prefix (Dafny's `<=` on sequences) never sorts after the string it begins. */
  lemma PrefixLexLe(a: string, b: string)
    requires a <= b
    ensures LexLe(a, b)
  {
  }
}

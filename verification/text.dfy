/**
 * Decimal rendering of integers, as Python's str() does it, used for the
 * string keys "i_j" of a multi-branch and for the default names of the
 * connectors that Component.Connect inserts.
 */
module Text {

  predicate IsDigit(c: char)
  {
    '0' <= c <= '9'
  }

  function DigitChar(d: nat): (c: char)
    requires d < 10
    ensures IsDigit(c)
  {
    (48 + d) as char
  }

  /** Decimal digits of n, most significant first, without leading zeros. */
  function NatToString(n: nat): (s: string)
    ensures |s| > 0
    ensures forall i :: 0 <= i < |s| ==> IsDigit(s[i])
    ensures n < 10 <==> |s| == 1
    decreases n
  {
    if n < 10 then [DigitChar(n)] else NatToString(n / 10) + [DigitChar(n % 10)]
  }

  /** str(i) for a Python int. */
  function IntToString(i: int): (s: string)
    ensures |s| > 0
    ensures 0 <= i <==> IsDigit(s[0])
  {
    if i < 0 then "-" + NatToString(-i) else NatToString(i)
  }

  /** Different numbers print differently. */
  lemma {:induction false} NatToStringInjective(a: nat, b: nat)
    requires NatToString(a) == NatToString(b)
    ensures a == b
    decreases a
  {
    var sa, sb := NatToString(a), NatToString(b);
    if a >= 10 && b >= 10 {
      assert sa[..|sa| - 1] == NatToString(a / 10);
      assert sb[..|sb| - 1] == NatToString(b / 10);
      NatToStringInjective(a / 10, b / 10);
      assert sa[|sa| - 1] == sb[|sb| - 1];
      assert a % 10 == b % 10;
    }
  }

  /** The key "i_j" of row i, column j of a multi-branch. */
  function PairKey(i: nat, j: nat): (s: string)
    ensures |s| == |IntToString(i)| + 1 + |IntToString(j)|
    ensures s[|IntToString(i)|] == '_'
  {
    IntToString(i) + "_" + IntToString(j)
  }

  /** "i_j" determines i and j: the first '_' ends the row number. */
  lemma PairKeyInjective(i: nat, j: nat, k: nat, l: nat)
    requires PairKey(i, j) == PairKey(k, l)
    ensures i == k && j == l
  {
    var a, c := NatToString(i), NatToString(k);
    var s := PairKey(i, j);
    assert |a| == |c|;
    assert s[..|a|] == a && s[..|c|] == c;
    NatToStringInjective(i, k);
    assert s[|a| + 1..] == NatToString(j) && s[|c| + 1..] == NatToString(l);
    NatToStringInjective(j, l);
  }
}

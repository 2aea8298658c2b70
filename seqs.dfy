/** Sums and running sums of reals, used for quantities. */
module Seqs {
  /** Python's `min(a, b)` on reals: the first argument unless the second is smaller. */
  function RealMin(a: real, b: real): (m: real)
    ensures m <= a && m <= b && (m == a || m == b)
  {
    if b < a then b else a
  }

  /** `sum(s)`, accumulated from the left as numpy and Python do. */
  function Sum(s: seq<real>): real {
    if s == [] then 0.0 else Sum(s[..|s| - 1]) + s[|s| - 1]
  }

  lemma SumAppend(s: seq<real>, x: real)
    ensures Sum(s + [x]) == Sum(s) + x
  {
    assert (s + [x])[..|s|] == s;
  }

  lemma {:induction false} SumConcat(s: seq<real>, t: seq<real>)
    ensures Sum(s + t) == Sum(s) + Sum(t)
    decreases |t|
  {
    if t == [] {
      assert s + t == s;
    } else {
      var t' := t[..|t| - 1];
      assert s + t == (s + t') + [t[|t| - 1]];
      SumAppend(s + t', t[|t| - 1]);
      SumConcat(s, t');
      assert t == t' + [t[|t| - 1]];
      SumAppend(t', t[|t| - 1]);
    }
  }

  /** Every element non-negative: the sum is non-negative and bounds each element. */
  lemma {:induction false} SumNonNegative(s: seq<real>)
    requires forall i :: 0 <= i < |s| ==> s[i] >= 0.0
    ensures Sum(s) >= 0.0
    ensures forall i :: 0 <= i < |s| ==> s[i] <= Sum(s)
  {
    if s != [] {
      SumNonNegative(s[..|s| - 1]);
      assert forall i :: 0 <= i < |s| - 1 ==> s[..|s| - 1][i] == s[i];
    }
  }

  /** Summing a scaled sequence scales the sum. */
  lemma {:induction false} SumScale(s: seq<real>, c: real, t: seq<real>)
    requires |t| == |s|
    requires forall i :: 0 <= i < |s| ==> t[i] == c * s[i]
    ensures Sum(t) == c * Sum(s)
  {
    if s != [] {
      SumScale(s[..|s| - 1], c, t[..|t| - 1]);
    }
  }

  lemma ConcatAssoc<T>(x: seq<T>, y: seq<T>, z: seq<T>)
    ensures (x + y) + z == x + (y + z)
  {
  }

  /** The concatenation of a list of lists, in order. */
  function Flatten<T>(s: seq<seq<T>>): seq<T> {
    if s == [] then [] else Flatten(s[..|s| - 1]) + s[|s| - 1]
  }

  lemma FlattenSingle<T>(x: seq<T>)
    ensures Flatten([x]) == x
  {
    assert [x][..0] == [];
  }

  lemma {:induction false} FlattenConcat<T>(s: seq<seq<T>>, t: seq<seq<T>>)
    ensures Flatten(s + t) == Flatten(s) + Flatten(t)
    decreases |t|
  {
    if t == [] {
      assert s + t == s;
    } else {
      var n := |t| - 1;
      assert (s + t)[..|s + t| - 1] == s + t[..n];
      FlattenConcat(s, t[..n]);
    }
  }

  /** When every part has two elements, part `k` sits at positions `2k` and `2k + 1`. */
  lemma {:induction false} FlattenPairs<T>(s: seq<seq<T>>, k: nat)
    requires forall j :: 0 <= j < |s| ==> |s[j]| == 2
    ensures |Flatten(s)| == 2 * |s|
    ensures k < |s| ==> Flatten(s)[2 * k..2 * k + 2] == s[k]
  {
    if s != [] {
      var n := |s| - 1;
      FlattenPairs(s[..n], k);
      if k < n {
        assert Flatten(s)[..2 * n] == Flatten(s[..n]);
      }
    }
  }
}

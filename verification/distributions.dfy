/** Probability vectors over the classes: the total, clamping to [0, 1], normalising by the total,
    and the position of the largest entry as Python's `max` finds it. Arithmetic is on reals. */
module Distributions {

  /** `sum(values)`. */
  function Sum(s: seq<real>): real {
    if s == [] then 0.0 else s[0] + Sum(s[1..])
  }

  predicate NonNegative(s: seq<real>) {
    forall i | 0 <= i < |s| :: 0.0 <= s[i]
  }

  /** Every entry lies in [0, 1]. */
  predicate InUnit(s: seq<real>) {
    forall i | 0 <= i < |s| :: 0.0 <= s[i] <= 1.0
  }

  lemma {:induction false} SumAppend(a: seq<real>, b: seq<real>)
    ensures Sum(a + b) == Sum(a) + Sum(b)
  {
    if a == [] {
      assert a + b == b;
    } else {
      assert (a + b)[0] == a[0];
      assert (a + b)[1..] == a[1..] + b;
      SumAppend(a[1..], b);
    }
  }

  /** In a vector without negative entries, no entry exceeds the total. */
  lemma {:induction false} EntryAtMostSum(s: seq<real>, i: nat)
    requires NonNegative(s) && i < |s|
    ensures 0.0 <= s[i] <= Sum(s)
  {
    if i > 0 {
      EntryAtMostSum(s[1..], i - 1);
    } else if |s| > 1 {
      SumNonNegative(s[1..]);
    }
  }

  lemma {:induction false} SumNonNegative(s: seq<real>)
    requires NonNegative(s)
    ensures Sum(s) >= 0.0
  {
    if s != [] {
      SumNonNegative(s[1..]);
    }
  }

  /** `max(0.0, min(1.0, x))`: the point of [0, 1] nearest to `x`. */
  function Clamp01(x: real): (r: real)
    ensures 0.0 <= r <= 1.0
    ensures 0.0 <= x <= 1.0 ==> r == x
    ensures x < 0.0 ==> r == 0.0
    ensures x > 1.0 ==> r == 1.0
  {
    if x < 0.0 then 0.0 else if x > 1.0 then 1.0 else x
  }

  /** Clamping keeps a strict order between a value above 0 and a value below 1. */
  lemma ClampKeepsOrder(x: real, y: real)
    requires y < x && 0.0 < x && y < 1.0
    ensures Clamp01(y) < Clamp01(x)
  {
  }

  /** `{k: v / total for k, v in probs.items()}`. */
  function Scale(s: seq<real>, total: real): (r: seq<real>)
    requires total != 0.0
    ensures |r| == |s|
    ensures forall i | 0 <= i < |s| :: r[i] == s[i] / total
  {
    seq(|s|, i requires 0 <= i < |s| => s[i] / total)
  }

  lemma {:induction false} SumScale(s: seq<real>, total: real)
    requires total != 0.0
    ensures Sum(Scale(s, total)) == Sum(s) / total
  {
    if s != [] {
      assert Scale(s, total)[1..] == Scale(s[1..], total);
      SumScale(s[1..], total);
    }
  }

  /** The normalisation step: divide by the total when it is positive, otherwise leave the
      values as they are. A vector without negative entries and with a positive total comes out
      summing to 1 with every entry in [0, 1], and the order between any two entries is kept. */
  function Normalize(s: seq<real>): (r: seq<real>)
    ensures |r| == |s|
    ensures Sum(s) <= 0.0 ==> r == s
    ensures Sum(s) > 0.0 ==> Sum(r) == 1.0
    ensures Sum(s) > 0.0 ==> forall i, j | 0 <= i < |s| && 0 <= j < |s| :: s[i] < s[j] <==> r[i] < r[j]
    ensures NonNegative(s) && Sum(s) > 0.0 ==> InUnit(r)
  {
    var total := Sum(s);
    if total > 0.0 then
      SumScale(s, total);
      ScaledInUnit(s);
      ScaledKeepsOrder(s, total);
      Scale(s, total)
    else s
  }

  lemma ScaledInUnit(s: seq<real>)
    requires Sum(s) > 0.0
    ensures NonNegative(s) ==> InUnit(Scale(s, Sum(s)))
  {
    if NonNegative(s) {
      forall i | 0 <= i < |s| ensures 0.0 <= Scale(s, Sum(s))[i] <= 1.0 {
        EntryAtMostSum(s, i);
        DivideAtMostOne(s[i], Sum(s));
      }
    }
  }

  lemma DivideAtMostOne(x: real, total: real)
    requires 0.0 <= x <= total && total > 0.0
    ensures 0.0 <= x / total <= 1.0
  {
    assert x / total * total == x;
  }

  lemma ScaledKeepsOrder(s: seq<real>, total: real)
    requires total > 0.0
    ensures forall i, j | 0 <= i < |s| && 0 <= j < |s| :: s[i] < s[j] <==> Scale(s, total)[i] < Scale(s, total)[j]
  {
    forall i, j | 0 <= i < |s| && 0 <= j < |s|
      ensures s[i] < s[j] <==> s[i] / total < s[j] / total
    {
      DivideKeepsOrder(s[i], s[j], total);
    }
  }

  lemma DivideKeepsOrder(x: real, y: real, total: real)
    requires total > 0.0
    ensures x < y <==> x / total < y / total
  {
    assert x / total * total == x && y / total * total == y;
  }

  /** `max(range(len(s)), key=lambda i: s[i])`: the first position holding the largest value. */
  function ArgMax(s: seq<real>): (k: nat)
    requires |s| > 0
    ensures k < |s|
    ensures forall j | 0 <= j < |s| :: s[j] <= s[k]
    ensures forall j | 0 <= j < k :: s[j] < s[k]
  {
    if |s| == 1 then 0
    else
      var k := ArgMax(s[..|s| - 1]);
      assert forall j | 0 <= j < |s| - 1 :: s[..|s| - 1][j] == s[j];
      if s[|s| - 1] > s[k] then |s| - 1 else k
  }

  /** The three properties of `ArgMax` pin the position down: any position with them is it. */
  lemma ArgMaxUnique(s: seq<real>, k: nat)
    requires k < |s|
    requires forall j | 0 <= j < |s| :: s[j] <= s[k]
    requires forall j | 0 <= j < k :: s[j] < s[k]
    ensures ArgMax(s) == k
  {
  }
}

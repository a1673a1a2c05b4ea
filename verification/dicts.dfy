/** A Python `dict[str, float]` as an insertion-ordered list of (key, value) pairs: assigning to a
    key already present overwrites its value in place, assigning to a new key appends the pair. */
module Dicts {
  import opened Wrappers

  type Entries = seq<(string, real)>

  function Keys(d: Entries): (r: seq<string>)
    ensures |r| == |d|
    ensures forall i | 0 <= i < |d| :: r[i] == d[i].0
  {
    seq(|d|, i requires 0 <= i < |d| => d[i].0)
  }

  /** `d.values()`. */
  function Values(d: Entries): (r: seq<real>)
    ensures |r| == |d|
    ensures forall i | 0 <= i < |d| :: r[i] == d[i].1
  {
    seq(|d|, i requires 0 <= i < |d| => d[i].1)
  }

  /** What every Python dict satisfies: no key occurs twice. */
  predicate DistinctKeys(d: Entries) {
    forall i, j | 0 <= i < j < |d| :: d[i].0 != d[j].0
  }

  /** `d.get(k)`: the value of the last pair with key `k` (the only one, in a dict). */
  function Get(d: Entries, k: string): (r: Option<real>)
    ensures r.None? <==> k !in Keys(d)
    ensures r.Some? ==> (k, r.value) in d
  {
    if d == [] then None
    else
      var n := |d| - 1;
      assert Keys(d) == Keys(d[..n]) + [d[n].0];
      if d[n].0 == k then Some(d[n].1) else Get(d[..n], k)
  }

  /** In a dict, the value stored with the key of a pair is that pair's value. */
  lemma {:induction false} GetDistinct(d: Entries, i: nat)
    requires DistinctKeys(d) && i < |d|
    ensures Get(d, d[i].0) == Some(d[i].1)
  {
    var n := |d| - 1;
    if i < n {
      GetDistinct(d[..n], i);
    }
  }

  function Replace(d: Entries, k: string, v: real): (r: Entries)
    ensures Keys(r) == Keys(d)
  {
    seq(|d|, i requires 0 <= i < |d| => if d[i].0 == k then (k, v) else d[i])
  }

  lemma {:induction false} GetReplace(d: Entries, k: string, v: real, j: string)
    ensures Get(Replace(d, k, v), j) == if j == k && k in Keys(d) then Some(v) else Get(d, j)
  {
    if d != [] {
      var n := |d| - 1;
      var r := Replace(d, k, v);
      assert r[..n] == Replace(d[..n], k, v);
      assert r[n] == if d[n].0 == k then (k, v) else d[n];
      assert k in Keys(d) <==> k in Keys(d[..n]) || d[n].0 == k by {
        assert Keys(d) == Keys(d[..n]) + [d[n].0];
      }
      GetReplace(d[..n], k, v, j);
    }
  }

  /** `d[k] = v`. */
  function Put(d: Entries, k: string, v: real): (r: Entries)
    ensures Keys(r) == if k in Keys(d) then Keys(d) else Keys(d) + [k]
    ensures Get(r, k) == Some(v)
    ensures forall j | j != k :: Get(r, j) == Get(d, j)
    ensures DistinctKeys(d) ==> DistinctKeys(r)
  {
    if k in Keys(d) then
      forall j ensures Get(Replace(d, k, v), j) == if j == k then Some(v) else Get(d, j) {
        GetReplace(d, k, v, j);
      }
      Replace(d, k, v)
    else
      var r := d + [(k, v)];
      assert r[..|d|] == d;
      r
  }

  /** `base.update(e)` applied pair by pair, which is also how a dict comprehension builds its
      result: later pairs win. */
  function Update(base: Entries, e: Entries): (r: Entries)
    ensures DistinctKeys(base) ==> DistinctKeys(r)
  {
    if e == [] then base
    else
      var n := |e| - 1;
      Put(Update(base, e[..n]), e[n].0, e[n].1)
  }

  /** After the update, a key of `e` maps to its value in `e`, and any other key keeps its value
      in `base`. */
  lemma {:induction false} GetUpdate(base: Entries, e: Entries, k: string)
    ensures Get(Update(base, e), k) == if k in Keys(e) then Get(e, k) else Get(base, k)
  {
    if e != [] {
      var n := |e| - 1;
      assert Keys(e) == Keys(e[..n]) + [e[n].0];
      GetUpdate(base, e[..n], k);
    }
  }

  /** `zip(ks, vs)`: pairs position by position, stopping at the shorter sequence. */
  function Zip(ks: seq<string>, vs: seq<real>): (r: Entries)
    ensures |r| == if |ks| <= |vs| then |ks| else |vs|
    ensures forall i | 0 <= i < |r| :: r[i] == (ks[i], vs[i])
  {
    var n := if |ks| <= |vs| then |ks| else |vs|;
    seq(n, i requires 0 <= i < n => (ks[i], vs[i]))
  }

  /** `{k: v for k, v in zip(ks, vs)}`. */
  function FromZip(ks: seq<string>, vs: seq<real>): (r: Entries)
    ensures DistinctKeys(r)
  {
    Update([], Zip(ks, vs))
  }

  /** The dict built from `zip(ks, vs)` has exactly the keys paired with a value, and when those
      keys are distinct each maps to the value at its own position. */
  lemma FromZipGet(ks: seq<string>, vs: seq<real>)
    ensures var n := if |ks| <= |vs| then |ks| else |vs|;
      && (forall k :: Get(FromZip(ks, vs), k).Some? <==> k in ks[..n])
      && ((forall i, j | 0 <= i < j < n :: ks[i] != ks[j]) ==>
            forall i | 0 <= i < n :: Get(FromZip(ks, vs), ks[i]) == Some(vs[i]))
  {
    var n := if |ks| <= |vs| then |ks| else |vs|;
    var z := Zip(ks, vs);
    assert Keys(z) == ks[..n];
    forall k ensures Get(FromZip(ks, vs), k) == Get(z, k) {
      GetUpdate([], z, k);
    }
    if forall i, j | 0 <= i < j < n :: ks[i] != ks[j] {
      forall i | 0 <= i < n ensures Get(z, ks[i]) == Some(vs[i]) {
        GetDistinct(z, i);
      }
    }
  }

  /** `max(xs)`; defined only when there is something to compare. */
  function MaxOf(xs: seq<real>): (m: real)
    requires |xs| > 0
    ensures m in xs
    ensures forall i | 0 <= i < |xs| :: xs[i] <= m
  {
    if |xs| == 1 then xs[0]
    else
      var m := MaxOf(xs[1..]);
      assert forall i | 1 <= i < |xs| :: xs[i] == xs[1..][i - 1];
      if xs[0] >= m then xs[0] else m
  }

  /** `max(d.values())`: None where Python raises ValueError on an empty dict. */
  function MaxValue(d: Entries): (r: Option<real>)
    ensures r.None? <==> d == []
    ensures r.Some? ==> (exists i | 0 <= i < |d| :: d[i].1 == r.value) && forall i | 0 <= i < |d| :: d[i].1 <= r.value
  {
    if d == [] then None
    else
      var m := MaxOf(Values(d));
      var i :| 0 <= i < |d| && Values(d)[i] == m;
      Some(m)
  }
}

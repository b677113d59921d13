/** The numpy array operations the estimators are built from: the first
    maximum and first minimum (`np.argmax`, `np.argmin`, `np.max`), boolean
    masks and the sub-arrays they select (`a[mask]`), successive differences
    (`np.diff`), element-wise quotients, and evenly spaced grids
    (`np.linspace`). Each is stated by what it selects or computes, so that the
    estimators can be reasoned about without unfolding them. */
module Arrays {

  /** The index of the first largest element, as `np.argmax`. */
  function ArgMax(xs: seq<real>): (k: nat)
    requires |xs| > 0
    ensures k < |xs|
    ensures forall i | 0 <= i < |xs| :: xs[i] <= xs[k]
    ensures forall i | 0 <= i < k :: xs[i] < xs[k]
  {
    ArgMaxTo(xs, |xs|)
  }

  /** The index of the first largest among the first n elements. */
  function ArgMaxTo(xs: seq<real>, n: nat): (k: nat)
    requires 0 < n <= |xs|
    ensures k < n
    ensures forall i | 0 <= i < n :: xs[i] <= xs[k]
    ensures forall i | 0 <= i < k :: xs[i] < xs[k]
  {
    if n == 1 then 0
    else
      var k := ArgMaxTo(xs, n - 1);
      if xs[n - 1] > xs[k] then n - 1 else k
  }

  /** The largest element, as `np.max`. */
  function Max(xs: seq<real>): real
    requires |xs| > 0
  {
    xs[ArgMax(xs)]
  }

  /** The index of the first smallest element, as `np.argmin`. */
  function ArgMin(xs: seq<real>): (k: nat)
    requires |xs| > 0
    ensures k < |xs|
    ensures forall i | 0 <= i < |xs| :: xs[k] <= xs[i]
    ensures forall i | 0 <= i < k :: xs[k] < xs[i]
  {
    ArgMinTo(xs, |xs|)
  }

  /** The index of the first smallest among the first n elements. */
  function ArgMinTo(xs: seq<real>, n: nat): (k: nat)
    requires 0 < n <= |xs|
    ensures k < n
    ensures forall i | 0 <= i < n :: xs[k] <= xs[i]
    ensures forall i | 0 <= i < k :: xs[k] < xs[i]
  {
    if n == 1 then 0
    else
      var k := ArgMinTo(xs, n - 1);
      if xs[n - 1] < xs[k] then n - 1 else k
  }

  /** A largest element bounds the sequence and occurs in it. */
  lemma MaxIsLargest(xs: seq<real>)
    requires |xs| > 0
    ensures forall i | 0 <= i < |xs| :: xs[i] <= Max(xs)
    ensures exists i | 0 <= i < |xs| :: xs[i] == Max(xs)
  {
    assert xs[ArgMax(xs)] == Max(xs);
  }

  /** `ArgMax` is the only index that is a maximum with nothing as large
      before it: the contract above determines it. */
  lemma ArgMaxUnique(xs: seq<real>, k: nat)
    requires k < |xs|
    requires forall i | 0 <= i < |xs| :: xs[i] <= xs[k]
    requires forall i | 0 <= i < k :: xs[i] < xs[k]
    ensures ArgMax(xs) == k
  {
  }

  /** `ArgMin` is the only index that is a minimum with nothing as small
      before it. */
  lemma ArgMinUnique(xs: seq<real>, k: nat)
    requires k < |xs|
    requires forall i | 0 <= i < |xs| :: xs[k] <= xs[i]
    requires forall i | 0 <= i < k :: xs[k] < xs[i]
    ensures ArgMin(xs) == k
  {
  }

  /** A prefix that reaches the first maximum has the same maximum, at the
      same index. */
  lemma ArgMaxOfPrefix(xs: seq<real>, n: nat)
    requires 0 < |xs| && ArgMax(xs) < n <= |xs|
    ensures ArgMax(xs[..n]) == ArgMax(xs)
    ensures Max(xs[..n]) == Max(xs)
  {
    ArgMaxUnique(xs[..n], ArgMax(xs));
  }

  function Abs(x: real): real {
    if x < 0.0 then -x else x
  }

  /** The distances |xs[i] - t|, as `np.abs(xs - t)`. */
  function Distances(xs: seq<real>, t: real): (ds: seq<real>)
    ensures |ds| == |xs|
    ensures forall i | 0 <= i < |xs| :: ds[i] == Abs(xs[i] - t)
  {
    seq(|xs|, i requires 0 <= i < |xs| => Abs(xs[i] - t))
  }

  /** The indices where a boolean mask holds: the positions `a[mask]` keeps.
      Their order is stated apart, by `WhereAscending`. */
  function Where(keep: seq<bool>): (ix: seq<nat>)
    ensures forall j | 0 <= j < |ix| :: ix[j] < |keep| && keep[ix[j]]
    ensures forall i | 0 <= i < |keep| && keep[i] :: i in ix
  {
    WhereTo(keep, |keep|)
  }

  /** The indices below n where the mask holds. */
  function WhereTo(keep: seq<bool>, n: nat): (ix: seq<nat>)
    requires n <= |keep|
    ensures forall j | 0 <= j < |ix| :: ix[j] < n && keep[ix[j]]
    ensures forall i | 0 <= i < n && keep[i] :: i in ix
  {
    if n == 0 then []
    else
      var ix := WhereTo(keep, n - 1);
      if keep[n - 1] then ix + [n - 1] else ix
  }

  /** Strictly increasing indices. */
  predicate Ascending(ix: seq<nat>) {
    forall j, l | 0 <= j < l < |ix| :: ix[j] < ix[l]
  }

  /** `a[mask]` keeps the selected elements in their original order. */
  lemma WhereAscending(keep: seq<bool>)
    ensures Ascending(Where(keep))
  {
    WhereToAscending(keep, |keep|);
  }

  lemma {:induction false} WhereToAscending(keep: seq<bool>, n: nat)
    requires n <= |keep|
    ensures Ascending(WhereTo(keep, n))
  {
    if n > 0 {
      WhereToAscending(keep, n - 1);
    }
  }

  /** A mask that holds nowhere selects nothing, and one that holds somewhere
      selects something. */
  lemma WhereEmpty(keep: seq<bool>)
    ensures |Where(keep)| == 0 <==> forall i | 0 <= i < |keep| :: !keep[i]
  {
    var ix := Where(keep);
    if |ix| > 0 {
      assert keep[ix[0]];
    }
  }

  /** The elements at the given indices, as fancy indexing `a[ix]`. */
  function Gather(xs: seq<real>, ix: seq<nat>): (ys: seq<real>)
    requires forall j | 0 <= j < |ix| :: ix[j] < |xs|
    ensures |ys| == |ix|
    ensures forall j | 0 <= j < |ix| :: ys[j] == xs[ix[j]]
  {
    GatherTo(xs, ix, |ix|)
  }

  function GatherTo(xs: seq<real>, ix: seq<nat>, n: nat): (ys: seq<real>)
    requires n <= |ix| && forall j | 0 <= j < |ix| :: ix[j] < |xs|
    ensures |ys| == n
    ensures forall j | 0 <= j < n :: ys[j] == xs[ix[j]]
  {
    if n == 0 then [] else GatherTo(xs, ix, n - 1) + [xs[ix[n - 1]]]
  }

  /** The mask `xs > t`. */
  function Above(xs: seq<real>, t: real): (keep: seq<bool>)
    ensures |keep| == |xs|
    ensures forall i | 0 <= i < |xs| :: keep[i] == (xs[i] > t)
  {
    AboveTo(xs, t, |xs|)
  }

  function AboveTo(xs: seq<real>, t: real, n: nat): (keep: seq<bool>)
    requires n <= |xs|
    ensures |keep| == n
    ensures forall i | 0 <= i < n :: keep[i] == (xs[i] > t)
  {
    if n == 0 then [] else AboveTo(xs, t, n - 1) + [xs[n - 1] > t]
  }

  /** The mask `xs < 0`. */
  function Negative(xs: seq<real>): (keep: seq<bool>)
    ensures |keep| == |xs|
    ensures forall i | 0 <= i < |xs| :: keep[i] == (xs[i] < 0.0)
  {
    NegativeTo(xs, |xs|)
  }

  function NegativeTo(xs: seq<real>, n: nat): (keep: seq<bool>)
    requires n <= |xs|
    ensures |keep| == n
    ensures forall i | 0 <= i < n :: keep[i] == (xs[i] < 0.0)
  {
    if n == 0 then [] else NegativeTo(xs, n - 1) + [xs[n - 1] < 0.0]
  }

  /** Successive differences xs[i+1] - xs[i], as `np.diff`; empty for fewer
      than two elements. */
  function Diffs(xs: seq<real>): (ds: seq<real>)
    ensures |ds| == if |xs| == 0 then 0 else |xs| - 1
    ensures forall i {:trigger ds[i]} | 0 <= i < |ds| :: ds[i] == xs[i + 1] - xs[i]
  {
    if |xs| == 0 then [] else DiffsTo(xs, |xs| - 1)
  }

  function DiffsTo(xs: seq<real>, n: nat): (ds: seq<real>)
    requires n < |xs|
    ensures |ds| == n
    ensures forall i {:trigger ds[i]} | 0 <= i < n :: ds[i] == xs[i + 1] - xs[i]
  {
    if n == 0 then [] else DiffsTo(xs, n - 1) + [xs[n] - xs[n - 1]]
  }

  predicate NoZero(xs: seq<real>) {
    forall i | 0 <= i < |xs| :: xs[i] != 0.0
  }

  /** Element-wise quotients us[i] / vs[i], as `us / vs`. */
  function Quotients(us: seq<real>, vs: seq<real>): (qs: seq<real>)
    requires |us| == |vs| && NoZero(vs)
    ensures |qs| == |us|
    ensures forall i | 0 <= i < |us| :: qs[i] == us[i] / vs[i]
  {
    QuotientsTo(us, vs, |us|)
  }

  function QuotientsTo(us: seq<real>, vs: seq<real>, n: nat): (qs: seq<real>)
    requires n <= |us| == |vs| && NoZero(vs)
    ensures |qs| == n
    ensures forall i | 0 <= i < n :: qs[i] == us[i] / vs[i]
  {
    if n == 0 then [] else QuotientsTo(us, vs, n - 1) + [us[n - 1] / vs[n - 1]]
  }

  /** `np.linspace(start, stop, num)`: num points, the first `start`, the last
      exactly `stop`, the rest start + k (stop - start) / (num - 1). */
  function Linspace(start: real, stop: real, num: nat): (xs: seq<real>)
    requires num >= 2
    ensures |xs| == num
  {
    var step := (stop - start) / (num - 1) as real;
    seq(num, k requires 0 <= k < num => if k == num - 1 then stop else start + k as real * step)
  }

  /** The grid starts at `start`, ends at `stop`, and consecutive points are
      one step (stop - start) / (num - 1) apart. */
  lemma LinspaceEvenlySpaced(start: real, stop: real, num: nat)
    requires num >= 2
    ensures var xs, step := Linspace(start, stop, num), (stop - start) / (num - 1) as real;
      && xs[0] == start && xs[num - 1] == stop
      && forall k | 0 <= k < num - 1 :: xs[k + 1] - xs[k] == step
  {
    var xs, step := Linspace(start, stop, num), (stop - start) / (num - 1) as real;
    forall k | 0 <= k < num - 1
      ensures xs[k + 1] - xs[k] == step
    {
      if k + 1 == num - 1 {
        LastStep(start, stop, (num - 1) as real, k as real, step);
      } else {
        NextStep(start, k as real, step);
      }
    }
  }

  lemma NextStep(start: real, k: real, step: real)
    ensures (start + (k + 1.0) * step) - (start + k * step) == step
  {
  }

  lemma LastStep(start: real, stop: real, n: real, k: real, step: real)
    requires n > 0.0 && k + 1.0 == n && step == (stop - start) / n
    ensures stop - (start + k * step) == step
  {
    assert step * n == stop - start;
  }

  /** A grid with start <= stop stays within [start, stop]. */
  lemma LinspaceBounded(start: real, stop: real, num: nat)
    requires num >= 2 && start <= stop
    ensures var xs := Linspace(start, stop, num);
      forall k | 0 <= k < num :: start <= xs[k] <= stop
  {
    var xs, step := Linspace(start, stop, num), (stop - start) / (num - 1) as real;
    forall k | 0 <= k < num
      ensures start <= xs[k] <= stop
    {
      if k < num - 1 {
        GridPointBounds(start, stop, (num - 1) as real, k as real, step);
      }
    }
  }

  /** A grid with start <= stop is non-decreasing. */
  lemma LinspaceOrdered(start: real, stop: real, num: nat)
    requires num >= 2 && start <= stop
    ensures var xs := Linspace(start, stop, num);
      forall j, k | 0 <= j <= k < num :: xs[j] <= xs[k]
  {
    var xs, step := Linspace(start, stop, num), (stop - start) / (num - 1) as real;
    StepNonNegative(start, stop, (num - 1) as real, step);
    forall j, k | 0 <= j <= k < num
      ensures xs[j] <= xs[k]
    {
      if k < num - 1 {
        GridPointsOrdered(start, j as real, k as real, step);
      } else if j < num - 1 {
        GridPointBounds(start, stop, (num - 1) as real, j as real, step);
      }
    }
  }

  lemma StepNonNegative(start: real, stop: real, n: real, step: real)
    requires n > 0.0 && start <= stop && step == (stop - start) / n
    ensures step >= 0.0
  {
  }

  lemma GridPointBounds(start: real, stop: real, n: real, k: real, step: real)
    requires 0.0 <= k < n && start <= stop && step == (stop - start) / n
    ensures start <= start + k * step <= stop
  {
    assert step * n == stop - start;
    assert step >= 0.0;
    assert k * step <= n * step;
  }

  lemma GridPointsOrdered(start: real, j: real, k: real, step: real)
    requires j <= k && step >= 0.0
    ensures start + j * step <= start + k * step
  {
    assert (k - j) * step >= 0.0;
  }
}

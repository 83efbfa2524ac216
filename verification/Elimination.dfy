/** Gaussian elimination with partial pivoting over exact reals: what the reference backend returns. */
module Elimination {
  import opened Common
  import opened Vectors
  import opened Entries

  type Rows = seq<Vec>

  ghost predicate Sized(a: Rows, b: Vec, n: nat) {
    |a| == |b| == n && forall i :: 0 <= i < n ==> |a[i]| == n
  }

  ghost predicate Solves(a: Rows, b: Vec, x: Vec)
    requires Sized(a, b, |x|)
  {
    forall i :: 0 <= i < |x| ==> Dot(a[i], x) == b[i]
  }

  /** The two systems have the same solutions. */
  ghost predicate Equivalent(a: Rows, b: Vec, a': Rows, b': Vec, n: nat) {
    && Sized(a, b, n) && Sized(a', b', n)
    && forall x: Vec :: |x| == n ==> (Solves(a, b, x) <==> Solves(a', b', x))
  }

  ghost function Exchanged<T>(s: seq<T>, p: nat, c: nat): (r: seq<T>)
    requires p < |s| && c < |s|
    ensures |r| == |s| && forall k :: 0 <= k < |s| ==> r[k] == if k == p then s[c] else if k == c then s[p] else s[k]
  {
    s[p := s[c]][c := s[p]]
  }

  lemma {:induction false} SwapKeeps(a: Rows, b: Vec, n: nat, p: nat, q: nat)
    requires Sized(a, b, n) && p < n && q < n
    ensures Equivalent(a, b, Exchanged(a, p, q), Exchanged(b, p, q), n)
  {
    var a', b' := Exchanged(a, p, q), Exchanged(b, p, q);
    forall x: Vec | |x| == n ensures Solves(a, b, x) <==> Solves(a', b', x) {
      hide Dot;
      Renumbered(a, b, a', b', p, q, x);
      Renumbered(a', b', a, b, p, q, x);
    }
  }

  /** Rows that are the same up to exchanging two numbers say the same. */
  lemma {:induction false} Renumbered(a: Rows, b: Vec, a': Rows, b': Vec, p: nat, q: nat, x: Vec)
    requires Sized(a, b, |x|) && Sized(a', b', |x|) && p < |x| && q < |x|
    requires forall i :: 0 <= i < |x| ==>
      var k := if i == p then q else if i == q then p else i; a[i] == a'[k] && b[i] == b'[k]
    ensures Solves(a', b', x) ==> Solves(a, b, x)
  {
    hide Dot;
    if Solves(a', b', x) {
      forall i | 0 <= i < |x| ensures Dot(a[i], x) == b[i] {
        var k := if i == p then q else if i == q then p else i;
        assert Dot(a'[k], x) == b'[k];
      }
    }
  }

  lemma {:induction false} AxpyTerm(row: Vec, c: real, pivotRow: Vec, x: Vec, term: real)
    requires |row| == |pivotRow| == |x| && term == c * Dot(pivotRow, x)
    ensures Dot(Axpy(row, c, pivotRow), x) == Dot(row, x) + term
  {
    hide Dot, Axpy;
    DotAxpy(row, c, pivotRow, x);
  }

  lemma {:induction false} UpdateRow(row: Vec, target: real, c: real, pivotRow: Vec, pivotTarget: real, x: Vec, term: real)
    requires |row| == |pivotRow| == |x| && Dot(pivotRow, x) == pivotTarget && term == c * pivotTarget
    ensures Dot(Axpy(row, c, pivotRow), x) == target + term <==> Dot(row, x) == target
  {
    hide Dot, Axpy;
    AxpyTerm(row, c, pivotRow, x, term);
  }

  lemma {:induction false} EquivalentTrans(a: Rows, b: Vec, a': Rows, b': Vec, a'': Rows, b'': Vec, n: nat)
    requires Equivalent(a, b, a', b', n) && Equivalent(a', b', a'', b'', n)
    ensures Equivalent(a, b, a'', b'', n)
  {
    forall x: Vec | |x| == n ensures Solves(a, b, x) <==> Solves(a'', b'', x) {
      assert Solves(a, b, x) <==> Solves(a', b', x);
    }
  }

  lemma {:induction false} EquivalentRefl(a: Rows, b: Vec, n: nat)
    requires Sized(a, b, n)
    ensures Equivalent(a, b, a, b, n)
  {
  }

  /** Columns below `c` are done: pivots nonzero and nothing below the diagonal. */
  ghost predicate Reduced(a: Rows, n: nat, c: nat)
    requires c <= n && |a| == n && forall i :: 0 <= i < n ==> |a[i]| == n
  {
    && (forall k :: 0 <= k < c ==> a[k][k] != 0.0)
    && (forall r, k :: 0 <= k < c && k < r < n ==> a[r][k] == 0.0)
  }

  function Abs(v: real): (r: real)
    ensures r >= 0.0 && (r == 0.0 <==> v == 0.0)
  {
    if v < 0.0 then -v else v
  }

  // ----- the pivot -----

  /** The first row of largest magnitude among rows `c` to `r`. */
  function PivotOf(a: Rows, c: nat, r: nat): (p: nat)
    requires c <= r < |a| && forall i :: 0 <= i < |a| ==> c < |a[i]|
    ensures c <= p <= r && forall k :: c <= k <= r ==> Abs(a[k][c]) <= Abs(a[p][c])
    ensures forall k :: c <= k < p ==> Abs(a[k][c]) < Abs(a[p][c])
  {
    if r == c then c
    else
      var p := PivotOf(a, c, r - 1);
      if Abs(a[r][c]) > Abs(a[p][c]) then r else p
  }

  /** `max(range(column, size), key=…)`: the first row of largest magnitude. */
  method PivotRow(a: Rows, n: nat, c: nat) returns (p: nat)
    requires c < n && |a| == n && forall i :: 0 <= i < n ==> |a[i]| == n
    ensures p == PivotOf(a, c, n - 1)
    ensures c <= p < n && forall r :: c <= r < n ==> Abs(a[r][c]) <= Abs(a[p][c])
    ensures forall r :: c <= r < p ==> Abs(a[r][c]) < Abs(a[p][c])
  {
    p := c;
    for r := c + 1 to n
      invariant c <= p < r && p == PivotOf(a, c, r - 1)
      invariant forall k :: c <= k < r ==> Abs(a[k][c]) <= Abs(a[p][c])
      invariant forall k :: c <= k < p ==> Abs(a[k][c]) < Abs(a[p][c])
    {
      if Abs(a[r][c]) > Abs(a[p][c]) {
        p := r;
      }
    }
  }

  // ----- one column -----

  function Factor(a: Rows, n: nat, c: nat, i: nat): (f: real)
    requires c < n && i < n && |a| == n && (forall k :: 0 <= k < n ==> |a[k]| == n) && a[c][c] != 0.0
  {
    a[i][c] / a[c][c]
  }

  /** Every row below `c` minus the multiple of row `c` that clears its column `c`. */
  function Cleared(a: Rows, n: nat, c: nat): (r: Rows)
    requires c < n && |a| == n && (forall i :: 0 <= i < n ==> |a[i]| == n) && a[c][c] != 0.0
    ensures |r| == n && (forall i :: 0 <= i < n ==> |r[i]| == n) && forall i :: 0 <= i <= c ==> r[i] == a[i]
  {
    seq(n, i requires 0 <= i < n => if i <= c then a[i] else Axpy(a[i], -Factor(a, n, c, i), a[c]))
  }

  function ClearedTargets(a: Rows, b: Vec, n: nat, c: nat): (r: Vec)
    requires Sized(a, b, n) && c < n && a[c][c] != 0.0
    ensures |r| == n
  {
    seq(n, i requires 0 <= i < n => if i <= c then b[i] else b[i] + Scale(-Factor(a, n, c, i), b[c]))
  }

  lemma {:induction false} FactorClears(v: real, pivot: real, f: real)
    requires pivot != 0.0 && f == v / pivot
    ensures v + -f * pivot == 0.0
  {
  }

  lemma {:induction false} ClearedEntry(a: Rows, n: nat, c: nat, i: nat, k: nat)
    requires c < i < n && k <= c && |a| == n && (forall i :: 0 <= i < n ==> |a[i]| == n) && a[c][c] != 0.0
    requires k < c ==> a[i][k] == 0.0 && a[c][k] == 0.0
    ensures Cleared(a, n, c)[i][k] == 0.0
  {
    FactorClears(a[i][c], a[c][c], Factor(a, n, c, i));
  }

  lemma {:induction false} ClearedReduced(a: Rows, n: nat, c: nat)
    requires c < n && |a| == n && (forall i :: 0 <= i < n ==> |a[i]| == n) && a[c][c] != 0.0 && Reduced(a, n, c)
    ensures Reduced(Cleared(a, n, c), n, c + 1)
  {
    hide Cleared;
    var d := Cleared(a, n, c);
    forall r, k | 0 <= k < c + 1 && k < r < n ensures d[r][k] == 0.0 {
      if r > c {
        ClearedEntry(a, n, c, r, k);
      }
    }
  }

  lemma {:induction false} ClearedRow(a: Rows, b: Vec, n: nat, c: nat, i: nat, x: Vec)
    requires Sized(a, b, n) && c < n && a[c][c] != 0.0 && |x| == n && i < n && Dot(a[c], x) == b[c]
    ensures Dot(Cleared(a, n, c)[i], x) == ClearedTargets(a, b, n, c)[i] <==> Dot(a[i], x) == b[i]
  {
    hide Dot, Axpy, Factor;
    if i > c {
      UpdateRow(a[i], b[i], -Factor(a, n, c, i), a[c], b[c], x, Scale(-Factor(a, n, c, i), b[c]));
    }
  }

  lemma {:induction false} ClearedKeeps(a: Rows, b: Vec, n: nat, c: nat)
    requires Sized(a, b, n) && c < n && a[c][c] != 0.0
    ensures Equivalent(a, b, Cleared(a, n, c), ClearedTargets(a, b, n, c), n)
  {
    var a', b' := Cleared(a, n, c), ClearedTargets(a, b, n, c);
    forall x: Vec | |x| == n ensures Solves(a, b, x) <==> Solves(a', b', x) {
      assert a'[c] == a[c] && b'[c] == b[c];
      hide Dot, Cleared, ClearedTargets;
      if Dot(a[c], x) == b[c] {
        forall i | 0 <= i < n ensures Dot(a[i], x) == b[i] <==> Dot(a'[i], x) == b'[i] {
          ClearedRow(a, b, n, c, i, x);
        }
      }
    }
  }

  /** A vector that row `c` annihilates does not see the clearing. */
  lemma {:induction false} ClearedDot(a: Rows, n: nat, c: nat, i: nat, z: Vec)
    requires c < n && |a| == |z| == n && (forall i :: 0 <= i < n ==> |a[i]| == n) && a[c][c] != 0.0
    requires i < n && Dot(a[c], z) == 0.0
    ensures Dot(Cleared(a, n, c)[i], z) == Dot(a[i], z)
  {
    hide Dot, Axpy, Factor;
    if i > c {
      assert -Factor(a, n, c, i) * 0.0 == 0.0;
      AxpyTerm(a[i], -Factor(a, n, c, i), a[c], z, 0.0);
    }
  }

  /** The inner loop over offsets: subtracts the multiple of the pivot row that clears column `c`. */
  method ClearRow(row: Vec, pivotRow: Vec, c: nat, f: real) returns (r: Vec)
    requires c < |row| == |pivotRow| && pivotRow[c] != 0.0 && f == row[c] / pivotRow[c]
    requires forall k :: 0 <= k < c ==> pivotRow[k] == 0.0
    ensures r == Axpy(row, -f, pivotRow) && r[c] == 0.0
    ensures forall k :: 0 <= k < c ==> r[k] == row[k]
  {
    r := row[c := 0.0];
    for o := c + 1 to |row|
      invariant |r| == |row| && r[c] == 0.0
      invariant forall k :: 0 <= k < c || o <= k < |row| ==> r[k] == row[k]
      invariant forall k :: c < k < o ==> r[k] == row[k] + -f * pivotRow[k]
    {
      r := r[o := r[o] + -f * pivotRow[o]];
    }
    FactorClears(row[c], pivotRow[c], f);
    assert r == Axpy(row, -f, pivotRow);
  }

  /** Clears column `c` below its pivot, row by row. */
  method ClearColumn(a: Rows, b: Vec, n: nat, c: nat) returns (a': Rows, b': Vec)
    requires Sized(a, b, n) && c < n && Reduced(a, n, c) && a[c][c] != 0.0
    ensures a' == Cleared(a, n, c) && b' == ClearedTargets(a, b, n, c)
  {
    hide Axpy;
    a', b' := a, b;
    for r := c + 1 to n
      invariant Sized(a', b', n)
      invariant forall k :: 0 <= k < r ==> a'[k] == Cleared(a, n, c)[k] && b'[k] == ClearedTargets(a, b, n, c)[k]
      invariant forall k :: r <= k < n ==> a'[k] == a[k] && b'[k] == b[k]
    {
      assert a'[c] == a[c] && b'[c] == b[c] && a'[r] == a[r];
      var f := a'[r][c] / a'[c][c];
      var cleared := ClearRow(a'[r], a'[c], c, f);
      a', b' := a'[r := cleared], b'[r := b'[r] + Scale(-f, b'[c])];
    }
  }

  // ----- all columns -----

  /** One column: None when no candidate exceeds the tolerance. */
  ghost function ColumnStep(a: Rows, b: Vec, n: nat, tolerance: real, c: nat): (r: Option<(Rows, Vec)>)
    requires Sized(a, b, n) && c < n && tolerance >= 0.0
    ensures r.Some? ==> Sized(r.value.0, r.value.1, n)
  {
    var p := PivotOf(a, c, n - 1);
    if Abs(a[p][c]) <= tolerance then None
    else
      var d, t := Exchanged(a, p, c), Exchanged(b, p, c);
      Some((Cleared(d, n, c), ClearedTargets(d, t, n, c)))
  }

  /** The system after the first `k` columns. */
  ghost function Eliminated(a: Rows, b: Vec, n: nat, tolerance: real, k: nat): (r: Option<(Rows, Vec)>)
    requires Sized(a, b, n) && k <= n && tolerance >= 0.0
    ensures r.Some? ==> Sized(r.value.0, r.value.1, n)
  {
    if k == 0 then Some((a, b))
    else
      var before := Eliminated(a, b, n, tolerance, k - 1);
      if before.None? then None else ColumnStep(before.value.0, before.value.1, n, tolerance, k - 1)
  }

  /** `k` columns are done, with pivots above the tolerance. */
  ghost predicate Pivoted(d: Rows, n: nat, tolerance: real, k: nat) {
    && |d| == n && k <= n && (forall i :: 0 <= i < n ==> |d[i]| == n) && Reduced(d, n, k)
    && forall j :: 0 <= j < k ==> Abs(d[j][j]) > tolerance
  }

  lemma {:induction false} ExchangedPivoted(a: Rows, n: nat, tolerance: real, c: nat, p: nat)
    requires Pivoted(a, n, tolerance, c) && c <= p < n
    ensures Pivoted(Exchanged(a, p, c), n, tolerance, c)
  {
  }

  lemma {:induction false} StepMeans(a: Rows, b: Vec, n: nat, tolerance: real, c: nat)
    requires Sized(a, b, n) && c < n && tolerance >= 0.0 && Pivoted(a, n, tolerance, c)
    ensures var r := ColumnStep(a, b, n, tolerance, c);
      if r.Some? then Equivalent(a, b, r.value.0, r.value.1, n) && Pivoted(r.value.0, n, tolerance, c + 1)
      else forall i :: c <= i < n ==> Abs(a[i][c]) <= tolerance
  {
    hide Equivalent, Cleared, ClearedTargets, PivotOf, Exchanged;
    var p := PivotOf(a, c, n - 1);
    if Abs(a[p][c]) > tolerance {
      var d, t := Exchanged(a, p, c), Exchanged(b, p, c);
      ExchangedPivoted(a, n, tolerance, c, p);
      SwapKeeps(a, b, n, p, c);
      ClearedKeeps(d, t, n, c);
      ClearedReduced(d, n, c);
      EquivalentTrans(a, b, d, t, Cleared(d, n, c), ClearedTargets(d, t, n, c), n);
    }
  }

  /** What elimination keeps: the solution set, pivots above the tolerance, and zeros below the diagonal. */
  lemma {:induction false} EliminatedMeans(a: Rows, b: Vec, n: nat, tolerance: real, k: nat)
    requires Sized(a, b, n) && k <= n && tolerance >= 0.0 && Eliminated(a, b, n, tolerance, k).Some?
    ensures var (d, t) := Eliminated(a, b, n, tolerance, k).value;
      Equivalent(a, b, d, t, n) && Pivoted(d, n, tolerance, k)
  {
    hide Equivalent, ColumnStep, Pivoted;
    if k == 0 {
      EquivalentRefl(a, b, n);
      NothingPivoted(a, b, n, tolerance);
    } else {
      EliminatedMeans(a, b, n, tolerance, k - 1);
      var (d, t) := Eliminated(a, b, n, tolerance, k - 1).value;
      StepMeans(d, t, n, tolerance, k - 1);
      var (d', t') := Eliminated(a, b, n, tolerance, k).value;
      EquivalentTrans(a, b, d, t, d', t', n);
    }
  }

  lemma {:induction false} NothingPivoted(a: Rows, b: Vec, n: nat, tolerance: real)
    requires Sized(a, b, n)
    ensures Pivoted(a, n, tolerance, 0)
  {
  }

  lemma {:induction false} StaysStuck(a: Rows, b: Vec, n: nat, tolerance: real, c: nat, k: nat)
    requires Sized(a, b, n) && c <= k <= n && tolerance >= 0.0 && Eliminated(a, b, n, tolerance, c).None?
    ensures Eliminated(a, b, n, tolerance, k).None?
  {
    hide ColumnStep;
    if c < k {
      StaysStuck(a, b, n, tolerance, c, k - 1);
    }
  }

  lemma {:induction false} EliminatedNext(a: Rows, b: Vec, n: nat, tolerance: real, c: nat, d: Rows, t: Vec)
    requires Sized(a, b, n) && c < n && tolerance >= 0.0 && Eliminated(a, b, n, tolerance, c) == Some((d, t))
    ensures Eliminated(a, b, n, tolerance, c + 1) == ColumnStep(d, t, n, tolerance, c)
  {
  }

  lemma {:induction false} StepIs(d: Rows, t: Vec, n: nat, tolerance: real, c: nat, p: nat)
    requires Sized(d, t, n) && c < n && tolerance >= 0.0 && p == PivotOf(d, c, n - 1)
    ensures Abs(d[p][c]) <= tolerance ==> ColumnStep(d, t, n, tolerance, c).None?
    ensures Abs(d[p][c]) > tolerance ==>
      var d', t' := Exchanged(d, p, c), Exchanged(t, p, c);
      d'[c][c] != 0.0 && ColumnStep(d, t, n, tolerance, c) == Some((Cleared(d', n, c), ClearedTargets(d', t', n, c)))
  {
  }

  /** Forward elimination; None when some pivot is not above the tolerance. */
  method Triangularise(a: Rows, b: Vec, n: nat, tolerance: real)
    returns (r: Option<(Rows, Vec)>, magnitudes: Vec)
    requires Sized(a, b, n) && tolerance >= 0.0
    ensures r == Eliminated(a, b, n, tolerance, n)
    ensures r.Some? ==> Sized(r.value.0, r.value.1, n) && Equivalent(a, b, r.value.0, r.value.1, n) && Reduced(r.value.0, n, n)
    ensures r.Some? ==> |magnitudes| == n && forall k :: 0 <= k < n ==> magnitudes[k] == Abs(r.value.0[k][k]) > tolerance
  {
    hide Equivalent, PivotOf, Cleared, ClearedTargets, Exchanged, ColumnStep, Eliminated, Pivoted, Abs;
    var d, t := a, b;
    magnitudes := [];
    NoColumns(a, b, n, tolerance);
    for c := 0 to n
      invariant Sized(d, t, n) && Eliminated(a, b, n, tolerance, c) == Some((d, t)) && |magnitudes| == c
      invariant forall k :: 0 <= k < c ==> magnitudes[k] == Abs(d[k][k])
    {
      EliminatedMeans(a, b, n, tolerance, c);
      EliminatedNext(a, b, n, tolerance, c, d, t);
      var p := PivotRow(d, n, c);
      StepIs(d, t, n, tolerance, c, p);
      if Abs(d[p][c]) <= tolerance {
        StaysStuck(a, b, n, tolerance, c + 1, n);
        return None, magnitudes;
      }
      ghost var d0, t0 := d, t;
      ExchangedPivoted(d, n, tolerance, c, p);
      if p != c {
        d, t := d[p := d[c]][c := d[p]], t[p := t[c]][c := t[p]];
      }
      assert d == Exchanged(d0, p, c) && t == Exchanged(t0, p, c);
      PivotedReduced(d, n, tolerance, c);
      magnitudes := magnitudes + [Abs(d[c][c])];
      d, t := ClearColumn(d, t, n, c);
    }
    EliminatedMeans(a, b, n, tolerance, n);
    PivotedReduced(d, n, tolerance, n);
    return Some((d, t)), magnitudes;
  }

  lemma {:induction false} NoColumns(a: Rows, b: Vec, n: nat, tolerance: real)
    requires Sized(a, b, n) && tolerance >= 0.0
    ensures Eliminated(a, b, n, tolerance, 0) == Some((a, b))
  {
  }

  lemma {:induction false} PivotedReduced(d: Rows, n: nat, tolerance: real, k: nat)
    requires Pivoted(d, n, tolerance, k)
    ensures Reduced(d, n, k) && forall j :: 0 <= j < k ==> Abs(d[j][j]) > tolerance
  {
  }

  // ----- back substitution -----

  /** When everything before `from` vanishes, only the tail contributes. */
  lemma {:induction false} DotTail(a: Vec, x: Vec, from: nat)
    requires |a| == |x| && from <= |a| && forall k :: 0 <= k < from ==> a[k] == 0.0 || x[k] == 0.0
    ensures Dot(a, x) == Dot(a[from..], x[from..])
  {
    assert a == a[..from] + a[from..] && x == x[..from] + x[from..];
    DotConcat(a[..from], a[from..], x[..from], x[from..]);
    DotVanishes(a[..from], x[..from]);
  }

  lemma {:induction false} DotSet(a: Vec, x: Vec, k: nat, v: real, term: real)
    requires |a| == |x| && k < |a| && x[k] == 0.0 && term == v * a[k]
    ensures Dot(a, x[k := v]) == Dot(a, x) + term
  {
    hide Dot;
    DotCommutes(a, x);
    DotCommutes(a, x[k := v]);
    DotUpdate(x, k, v, a);
    assert x[k] + v == v;
  }

  lemma {:induction false} QuotientTimes(p: real, q: real, v: real)
    requires q != 0.0 && v == p / q
    ensures v * q == p
  {
  }

  method BackSubstitute(d: Rows, t: Vec, n: nat) returns (x: Vec)
    requires Sized(d, t, n) && Reduced(d, n, n)
    ensures |x| == n && Solves(d, t, x)
  {
    x := Zeros(n);
    for row := n downto 0
      invariant |x| == n && forall k :: 0 <= k < row ==> x[k] == 0.0
      invariant forall k :: row <= k < n ==> Dot(d[k], x) == t[k]
    {
      var known := Dot(d[row][row + 1..], x[row + 1..]);
      var v := (t[row] - known) / d[row][row];
      SubstituteRow(d, n, n, x, row, t[row], known, v);
      x := x[row := v];
    }
  }

  /** Setting component `row` makes row `row` hold and leaves the rows below as they were. */
  lemma {:induction false} SubstituteRow(d: Rows, n: nat, m: nat, x: Vec, row: nat, target: real, known: real, v: real)
    requires |d| == |x| == n && (forall i :: 0 <= i < n ==> |d[i]| == n) && row < m <= n && Reduced(d, n, m)
    requires forall k :: 0 <= k <= row ==> x[k] == 0.0
    requires known == Dot(d[row][row + 1..], x[row + 1..]) && v == (target - known) / d[row][row]
    ensures Dot(d[row], x[row := v]) == target
    ensures forall k :: row < k < n ==> Dot(d[k], x[row := v]) == Dot(d[k], x)
  {
    hide Dot;
    DotTail(d[row], x, row + 1);
    QuotientTimes(target - known, d[row][row], v);
    DotSet(d[row], x, row, v, v * d[row][row]);
    forall k | row < k < n ensures Dot(d[k], x[row := v]) == Dot(d[k], x) {
      assert d[k][row] == 0.0;
      DotSet(d[k], x, row, v, 0.0);
    }
  }

  /** Components below `m` of a vector can be chosen so that the first `m` rows hold; later rows do not see them. */
  lemma {:induction false} Substituted(d: Rows, t: Vec, n: nat, m: nat, start: Vec, row: nat) returns (x: Vec)
    requires Sized(d, t, n) && |start| == n && row <= m <= n && Reduced(d, n, m)
    requires forall k :: 0 <= k < m ==> start[k] == 0.0
    ensures |x| == n && (forall k :: m <= k < n ==> x[k] == start[k]) && forall k :: 0 <= k < row ==> x[k] == 0.0
    ensures forall k :: row <= k < m ==> Dot(d[k], x) == t[k]
    ensures forall k :: m <= k < n ==> Dot(d[k], x) == Dot(d[k], start)
    decreases m - row
  {
    hide Dot;
    if row == m {
      x := start;
    } else {
      var rest := Substituted(d, t, n, m, start, row + 1);
      var known := Dot(d[row][row + 1..], rest[row + 1..]);
      var v := (t[row] - known) / d[row][row];
      SubstituteRow(d, n, m, rest, row, t[row], known, v);
      x := rest[row := v];
    }
  }

  // ----- uniqueness -----

  lemma {:induction false} ProductZero(p: real, q: real)
    requires p != 0.0 && p * q == 0.0
    ensures q == 0.0
  {
  }

  lemma {:induction false} FirstTermOnly(a: Vec, x: Vec, term: real)
    requires |a| == |x| > 0 && term == a[0] * x[0] && forall k :: 1 <= k < |x| ==> x[k] == 0.0
    ensures Dot(a, x) == term
  {
    DotSingle(a[0], x[0], term);
    hide Dot;
    assert a == [a[0]] + a[1..] && x == [x[0]] + x[1..];
    DotConcat([a[0]], a[1..], [x[0]], x[1..]);
    DotVanishes(a[1..], x[1..]);
  }

  /** Only zero is mapped to zero by a triangular matrix with nonzero pivots. */
  lemma {:induction false} TriangularKernel(d: Rows, n: nat, z: Vec, from: nat)
    requires |d| == |z| == n && (forall i :: 0 <= i < n ==> |d[i]| == n) && Reduced(d, n, n) && from <= n
    requires forall i :: 0 <= i < n ==> Dot(d[i], z) == 0.0
    ensures forall k :: from <= k < n ==> z[k] == 0.0
    decreases n - from
  {
    if from < n {
      hide Dot;
      TriangularKernel(d, n, z, from + 1);
      DotTail(d[from], z, from);
      FirstTermOnly(d[from][from..], z[from..], d[from][from] * z[from]);
      ProductZero(d[from][from], z[from]);
    }
  }

  lemma {:induction false} SolutionIsUnique(d: Rows, t: Vec, n: nat, x: Vec, y: Vec)
    requires Sized(d, t, n) && Reduced(d, n, n) && |x| == |y| == n && Solves(d, t, x) && Solves(d, t, y)
    ensures x == y
  {
    var z := Axpy(x, -1.0, y);
    forall i | 0 <= i < n ensures Dot(d[i], z) == 0.0 {
      DotAxpyRight(d[i], x, -1.0, y);
    }
    TriangularKernel(d, n, z, 0);
    forall k | 0 <= k < n ensures x[k] == y[k] {
      assert z[k] == 0.0;
    }
  }

  // ----- what it means to be stuck -----

  ghost predicate Annihilates(a: Rows, z: Vec)
    requires |a| == |z| && forall i :: 0 <= i < |z| ==> |a[i]| == |z|
  {
    forall i :: 0 <= i < |z| ==> Dot(a[i], z) == 0.0
  }

  /** Some vector with a component 1 is mapped to components of at most `bound` in magnitude. */
  ghost predicate NearlySingular(a: Rows, n: nat, bound: real)
    requires |a| == n && forall i :: 0 <= i < n ==> |a[i]| == n
  {
    exists z: Vec :: |z| == n && 1.0 in z && forall i :: 0 <= i < n ==> Abs(Dot(a[i], z)) <= bound
  }

  /** Some vector other than zero is mapped to zero. */
  ghost predicate HasKernel(a: Rows, n: nat)
    requires |a| == n && forall i :: 0 <= i < n ==> |a[i]| == n
  {
    exists z: Vec :: |z| == n && z != Zeros(n) && Annihilates(a, z)
  }

  /** The first `k` rows map z to zero, and all rows map it to at most the bound. */
  ghost predicate Tight(a: Rows, z: Vec, k: nat, bound: real)
    requires |a| == |z| && k <= |z| && forall i :: 0 <= i < |z| ==> |a[i]| == |z|
  {
    (forall i :: 0 <= i < k ==> Dot(a[i], z) == 0.0) && forall i :: 0 <= i < |z| ==> Abs(Dot(a[i], z)) <= bound
  }

  lemma {:induction false} TightBefore(a: Rows, b: Vec, n: nat, tolerance: real, c: nat, z: Vec)
    requires Sized(a, b, n) && c < n == |z| && tolerance >= 0.0 && ColumnStep(a, b, n, tolerance, c).Some?
    requires Tight(ColumnStep(a, b, n, tolerance, c).value.0, z, c + 1, tolerance)
    ensures Tight(a, z, c, tolerance)
  {
    hide Dot, Cleared, ClearedTargets;
    var p := PivotOf(a, c, n - 1);
    var d := Exchanged(a, p, c);
    forall i | 0 <= i < n ensures Abs(Dot(d[i], z)) <= tolerance {
      assert Cleared(d, n, c)[c] == d[c];
      ClearedDot(d, n, c, i, z);
    }
    forall i | 0 <= i < n ensures Abs(Dot(a[i], z)) <= tolerance {
      assert a[i] == d[if i == p then c else if i == c then p else i];
    }
    forall i | 0 <= i < c ensures Dot(a[i], z) == 0.0 {
      assert Cleared(d, n, c)[i] == a[i];
    }
  }

  /** A vector that is tight for the reduced rows is tight for the rows as given. */
  lemma {:induction false} TightAtStart(a: Rows, b: Vec, n: nat, tolerance: real, k: nat, z: Vec)
    requires Sized(a, b, n) && k <= n == |z| && tolerance >= 0.0 && Eliminated(a, b, n, tolerance, k).Some?
    requires Tight(Eliminated(a, b, n, tolerance, k).value.0, z, k, tolerance)
    ensures Tight(a, z, 0, tolerance)
  {
    hide ColumnStep, Tight;
    if k > 0 {
      var (d, t) := Eliminated(a, b, n, tolerance, k - 1).value;
      TightBefore(d, t, n, tolerance, k - 1, z);
      TightAtStart(a, b, n, tolerance, k - 1, z);
    } else {
      assert Eliminated(a, b, n, tolerance, 0) == Some((a, b));
    }
  }

  /** Where elimination stops: every remaining candidate of the column is within the tolerance. */
  lemma {:induction false} StuckColumn(a: Rows, b: Vec, n: nat, tolerance: real, k: nat) returns (c: nat)
    requires Sized(a, b, n) && k <= n && tolerance >= 0.0 && Eliminated(a, b, n, tolerance, k).None?
    ensures c < k && Eliminated(a, b, n, tolerance, c).Some?
    ensures var d := Eliminated(a, b, n, tolerance, c).value.0;
      Pivoted(d, n, tolerance, c) && forall i :: c <= i < n ==> Abs(d[i][c]) <= tolerance
  {
    hide ColumnStep, Pivoted;
    if Eliminated(a, b, n, tolerance, k - 1).None? {
      c := StuckColumn(a, b, n, tolerance, k - 1);
    } else {
      c := k - 1;
      var (d, t) := Eliminated(a, b, n, tolerance, c).value;
      EliminatedMeans(a, b, n, tolerance, c);
      StepMeans(d, t, n, tolerance, c);
    }
  }

  /** Back substitution from a unit component: the first rows vanish, the others show their entries of that column. */
  lemma {:induction false} StuckVector(d: Rows, n: nat, tolerance: real, c: nat) returns (z: Vec)
    requires c < n && tolerance >= 0.0 && Pivoted(d, n, tolerance, c) && forall i :: c <= i < n ==> Abs(d[i][c]) <= tolerance
    ensures |z| == n && z[c] == 1.0 && Tight(d, z, c, tolerance)
  {
    hide Dot;
    var start := Zeros(n)[c := 1.0];
    z := Substituted(d, Zeros(n), n, c, start, 0);
    forall i | c <= i < n ensures Dot(d[i], z) == d[i][c] {
      DotZeros(d[i]);
      DotCommutes(d[i], Zeros(n));
      DotSet(d[i], Zeros(n), c, 1.0, d[i][c]);
    }
  }

  /** Elimination gives up only on a matrix that is nearly singular, within the tolerance, as it was given. */
  lemma {:induction false} StuckIsNearlySingular(a: Rows, b: Vec, n: nat, tolerance: real)
    requires Sized(a, b, n) && tolerance >= 0.0 && Eliminated(a, b, n, tolerance, n).None?
    ensures NearlySingular(a, n, tolerance)
  {
    hide Eliminated, Pivoted;
    var c := StuckColumn(a, b, n, tolerance, n);
    var z := StuckVector(Eliminated(a, b, n, tolerance, c).value.0, n, tolerance, c);
    TightAtStart(a, b, n, tolerance, c, z);
    assert 1.0 in z;
  }

  lemma {:induction false} KernelStep(a: Rows, b: Vec, n: nat, tolerance: real, c: nat, z: Vec)
    requires Sized(a, b, n) && c < n == |z| && tolerance >= 0.0 && ColumnStep(a, b, n, tolerance, c).Some? && Annihilates(a, z)
    ensures Annihilates(ColumnStep(a, b, n, tolerance, c).value.0, z)
  {
    hide Dot, Cleared, ClearedTargets;
    var d := Exchanged(a, PivotOf(a, c, n - 1), c);
    forall i | 0 <= i < n ensures Dot(Cleared(d, n, c)[i], z) == 0.0 {
      ClearedDot(d, n, c, i, z);
    }
  }

  lemma {:induction false} KernelAfter(a: Rows, b: Vec, n: nat, tolerance: real, k: nat, z: Vec)
    requires Sized(a, b, n) && k <= n == |z| && tolerance >= 0.0 && Eliminated(a, b, n, tolerance, k).Some? && Annihilates(a, z)
    ensures Annihilates(Eliminated(a, b, n, tolerance, k).value.0, z)
  {
    hide ColumnStep, Annihilates;
    if k > 0 {
      KernelAfter(a, b, n, tolerance, k - 1, z);
      var (d, t) := Eliminated(a, b, n, tolerance, k - 1).value;
      KernelStep(d, t, n, tolerance, k - 1, z);
    }
  }

  /** A singular matrix is never taken for a regular one, whatever the tolerance. */
  lemma {:induction false} KernelGetsStuck(a: Rows, b: Vec, n: nat, tolerance: real)
    requires Sized(a, b, n) && tolerance >= 0.0 && HasKernel(a, n)
    ensures Eliminated(a, b, n, tolerance, n).None?
  {
    hide Eliminated;
    var z: Vec :| |z| == n && z != Zeros(n) && Annihilates(a, z);
    var k :| 0 <= k < n && z[k] != Zeros(n)[k];
    if Eliminated(a, b, n, tolerance, n).Some? {
      KernelAfter(a, b, n, tolerance, n, z);
      EliminatedMeans(a, b, n, tolerance, n);
      TriangularKernel(Eliminated(a, b, n, tolerance, n).value.0, n, z, 0);
    }
  }

  /** Without a tolerance elimination gives up exactly on the singular matrices. */
  lemma {:induction false} StuckIffSingular(a: Rows, b: Vec, n: nat)
    requires Sized(a, b, n)
    ensures Eliminated(a, b, n, 0.0, n).None? <==> HasKernel(a, n)
  {
    hide Eliminated, Dot;
    if Eliminated(a, b, n, 0.0, n).None? {
      StuckIsNearlySingular(a, b, n, 0.0);
      var z: Vec :| |z| == n && 1.0 in z && forall i :: 0 <= i < n ==> Abs(Dot(a[i], z)) <= 0.0;
      assert z != Zeros(n);
      assert Annihilates(a, z);
    }
    if HasKernel(a, n) {
      KernelGetsStuck(a, b, n, 0.0);
    }
  }

  /** A square system without a kernel can be solved. */
  lemma {:induction false} RegularIsSolvable(a: Rows, b: Vec, n: nat) returns (x: Vec)
    requires Sized(a, b, n) && !HasKernel(a, n)
    ensures |x| == n && Solves(a, b, x)
  {
    hide Eliminated, Dot;
    StuckIffSingular(a, b, n);
    EliminatedMeans(a, b, n, 0.0, n);
    var (d, t) := Eliminated(a, b, n, 0.0, n).value;
    x := Substituted(d, t, n, n, Zeros(n), 0);
    assert Solves(d, t, x);
  }
}

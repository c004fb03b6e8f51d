/**
 The grid of window boundaries s0, s0 + W, s0 + 2W, ... shared by all CPUs. Defined by recursion so
 that reasoning about it stays linear.
 */
module WindowGrid {
  import opened Arith

  function Boundary(s0: int, window: int, k: nat): int {
    if k == 0 then s0 else Boundary(s0, window, k - 1) + window
  }

  // The window that contains the instant x.
  function Index(s0: int, window: int, x: int): (k: nat)
    requires window > 0 && s0 <= x
    ensures Boundary(s0, window, k) <= x < Boundary(s0, window, k) + window
    decreases x - s0
  {
    if x < s0 + window then 0 else Index(s0, window, x - window) + 1
  }

  // The last boundary not after x.
  function Grid(s0: int, window: int, x: int): int
    requires window > 0 && s0 <= x
  {
    Boundary(s0, window, Index(s0, window, x))
  }

  predicate OnGrid(s0: int, window: int, ws: int)
    requires window > 0
  {
    s0 <= ws && ws == Grid(s0, window, ws)
  }

  lemma {:induction false} BoundaryOrder(s0: int, window: int, j: nat, k: nat)
    requires window > 0
    ensures j <= k ==> Boundary(s0, window, j) <= Boundary(s0, window, k)
    ensures j < k ==> Boundary(s0, window, j) + window <= Boundary(s0, window, k)
    decreases k
  {
    if j < k {
      BoundaryOrder(s0, window, j, k - 1);
    }
  }

  lemma IndexUnique(s0: int, window: int, x: int, k: nat)
    requires window > 0 && s0 <= x
    requires Boundary(s0, window, k) <= x < Boundary(s0, window, k) + window
    ensures Index(s0, window, x) == k
  {
    BoundaryOrder(s0, window, Index(s0, window, x), k);
    BoundaryOrder(s0, window, k, Index(s0, window, x));
  }

  lemma GridUnique(s0: int, window: int, ws: int, x: int)
    requires window > 0 && OnGrid(s0, window, ws) && ws <= x < ws + window
    ensures Index(s0, window, ws) == Index(s0, window, x)
    ensures ws == Grid(s0, window, x)
  {
    IndexUnique(s0, window, x, Index(s0, window, ws));
  }

  lemma BoundaryOnGrid(s0: int, window: int, k: nat)
    requires window > 0
    ensures OnGrid(s0, window, Boundary(s0, window, k))
    ensures Index(s0, window, Boundary(s0, window, k)) == k
  {
    BoundaryOrder(s0, window, 0, k);
    IndexUnique(s0, window, Boundary(s0, window, k), k);
  }

  /** The grid in closed form. */
  lemma {:induction false} BoundaryIs(s0: int, window: int, k: nat)
    ensures Boundary(s0, window, k) == s0 + k * window
  {
    if k > 0 {
      BoundaryIs(s0, window, k - 1);
      assert k * window == (k - 1) * window + window;
    }
  }

  /** Whole windows later is still on the grid. */
  lemma GridStep(s0: int, window: int, ws: int, n: nat)
    requires window > 0 && OnGrid(s0, window, ws)
    ensures OnGrid(s0, window, ws + n * window)
    ensures Index(s0, window, ws + n * window) == Index(s0, window, ws) + n
  {
    var k := Index(s0, window, ws);
    BoundaryIs(s0, window, k);
    BoundaryIs(s0, window, k + n);
    assert (k + n) * window == k * window + n * window;
    BoundaryOnGrid(s0, window, k + n);
  }

  /** Rewinding whole windows from a boundary past a mark reaches the mark itself or the first
      boundary after it. */
  lemma FirstBoundary(s0: int, window: int, mark: int, ws: int, n: nat)
    returns (k: nat, k': nat)
    requires window > 0 && s0 <= mark < ws && OnGrid(s0, window, ws)
    requires n * window <= ws - mark < n * window + window
    ensures k == Index(s0, window, mark) && k' + n == Index(s0, window, ws)
    ensures ws - n * window == Boundary(s0, window, k')
    ensures mark <= Boundary(s0, window, k')
    ensures if mark == Boundary(s0, window, k) then k' == k else k' == k + 1
  {
    k := Index(s0, window, mark);
    var j := Index(s0, window, ws);
    BoundaryIs(s0, window, j);
    BoundaryIs(s0, window, k);
    assert (j - n) * window == j * window - n * window;
    assert (j - n - k) * window == (j - n) * window - k * window;
    MulSign(j - n - k, window);
    MulSign(j - n - k - 1, window);
    assert (j - n - k - 1) * window == (j - n - k) * window - window;
    MulSign(j - n - k - 2, window);
    assert (j - n - k - 2) * window == (j - n - k) * window - 2 * window;
    k' := j - n;
    BoundaryIs(s0, window, k');
  }
}

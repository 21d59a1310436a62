/** One time step of the explicit central-difference scheme: the pointwise
    stencil, the vectorised compute_next_step of main_modular.py, and what
    a step preserves. */
module Stepper {
  import opened Parameters
  import opened Buffers
  import opened Fields

  /** The scheme at one interior index i:
      2*u[i] - u_prev[i] + C2*(u[i+1] - 2*u[i] + u[i-1]).
      It is the discrete wave equation solved for the next level: the
      second difference in time equals C2 times the second difference in
      space. */
  function Stencil(u: seq<real>, uPrev: seq<real>, C2: real, i: int): (next: real)
    requires |uPrev| == |u| && 1 <= i < |u| - 1
    ensures (next - u[i]) - (u[i] - uPrev[i]) == C2 * ((u[i + 1] - u[i]) - (u[i] - u[i - 1]))
  {
    2.0 * u[i] - uPrev[i] + C2 * (u[i + 1] - 2.0 * u[i] + u[i - 1])
  }

  // Elementwise NumPy arithmetic on equal-length slices.

  function Plus(a: seq<real>, b: seq<real>): (r: seq<real>)
    requires |a| == |b|
    ensures |r| == |a|
    ensures forall i :: 0 <= i < |a| ==> r[i] == a[i] + b[i]
  {
    seq(|a|, i requires 0 <= i < |a| => a[i] + b[i])
  }

  function Minus(a: seq<real>, b: seq<real>): (r: seq<real>)
    requires |a| == |b|
    ensures |r| == |a|
    ensures forall i :: 0 <= i < |a| ==> r[i] == a[i] - b[i]
  {
    seq(|a|, i requires 0 <= i < |a| => a[i] - b[i])
  }

  function Times(k: real, a: seq<real>): (r: seq<real>)
    ensures |r| == |a|
    ensures forall i :: 0 <= i < |a| ==> r[i] == k * a[i]
  {
    seq(|a|, i requires 0 <= i < |a| => k * a[i])
  }

  /** The vectorised right-hand side assigned to u_next[1:-1]:
        2*u[1:-1] - u_prev[1:-1] + C2*(u[2:] - 2*u[1:-1] + u[:-2]). */
  function Interior(u: seq<real>, uPrev: seq<real>, C2: real): (r: seq<real>)
    requires |u| == |uPrev| >= 2
    ensures |r| == |u| - 2
  {
    var n := |u|;
    var mid := u[1..n - 1];
    Plus(Minus(Times(2.0, mid), uPrev[1..n - 1]),
         Times(C2, Plus(Minus(u[2..], Times(2.0, mid)), u[..n - 2])))
  }

  /** Entry j of the sliced expression is the pointwise stencil at j + 1:
      the shifted slices u[2:] and u[:-2] supply the right and left
      neighbours. */
  lemma InteriorPointwise(u: seq<real>, uPrev: seq<real>, C2: real, j: int)
    requires |u| == |uPrev| >= 2 && 0 <= j < |u| - 2
    ensures Interior(u, uPrev, C2)[j] == Stencil(u, uPrev, C2, j + 1)
  {
    var n := |u|;
    var mid := u[1..n - 1];
    assert mid[j] == u[j + 1] && u[2..][j] == u[j + 2] && u[..n - 2][j] == u[j];
    assert uPrev[1..n - 1][j] == uPrev[j + 1];
  }

  /** The step as the scheme defines it: the stencil at every interior
      index and 0 at both ends (the fixed ends). */
  function NextStep(u: seq<real>, uPrev: seq<real>, C2: real): (r: seq<real>)
    requires |u| == |uPrev| >= 1
    ensures |r| == |u|
    ensures r[0] == 0.0 && r[|u| - 1] == 0.0
  {
    seq(|u|, i requires 0 <= i < |u| =>
      if i == 0 || i == |u| - 1 then 0.0 else Stencil(u, uPrev, C2, i))
  }

  /** compute_next_step on values, as written: a zero field of the same
      length whose slice [1:-1] receives the vectorised expression, after
      which entries 0 and -1 are set to 0. For a single point the slice is
      empty and the field is [0.0]. */
  function SlicedStep(u: seq<real>, uPrev: seq<real>, C2: real): (r: seq<real>)
    requires |u| == |uPrev| >= 1
    ensures |r| == |u|
    ensures r[0] == 0.0 && r[|u| - 1] == 0.0
  {
    if |u| == 1 then [0.0] else [0.0] + Interior(u, uPrev, C2) + [0.0]
  }

  /** The vectorised compute_next_step computes exactly the scheme: the
      slices line up with the pointwise stencil at every interior index and
      the ends are zero. */
  lemma SlicedStepIsNextStep(u: seq<real>, uPrev: seq<real>, C2: real)
    requires |u| == |uPrev| >= 1
    ensures SlicedStep(u, uPrev, C2) == NextStep(u, uPrev, C2)
  {
    var r, q := SlicedStep(u, uPrev, C2), NextStep(u, uPrev, C2);
    forall i | 0 <= i < |u|
      ensures r[i] == q[i]
    {
      if 1 <= i < |u| - 1 {
        InteriorPointwise(u, uPrev, C2, i - 1);
      }
    }
  }

  /** compute_next_step on arrays: the result is freshly allocated, and the
      method may modify nothing, so u and u_prev are left as they were. */
  method ComputeNextStep(u: array<real>, uPrev: array<real>, p: Params) returns (uNext: array<real>)
    requires u.Length == uPrev.Length >= 1 && p.dx != 0.0
    ensures fresh(uNext)
    ensures u[..] == old(u[..]) && uPrev[..] == old(uPrev[..])
    ensures uNext[..] == NextStep(u[..], uPrev[..], CourantSquared(p.c, p.dt, p.dx))
  {
    var C2 := CourantSquared(p.c, p.dt, p.dx);
    uNext := FromSeq(SlicedStep(u[..], uPrev[..], C2));
    SlicedStepIsNextStep(u[..], uPrev[..], C2);
  }

  /** The in-place loop `for i in range(1, nx-1)` of main.py and of the
      update callback of main_animation.py: C2 is computed, and u_next[i]
      overwritten with the stencil of u and u_prev, at each interior index.
      The ends of u_next are never written, so when they hold zeros u_next
      ends up holding exactly what compute_next_step returns. u and u_prev
      are not modified. */
  method SweepInterior(u: array<real>, uPrev: array<real>, uNext: array<real>, c: real, dt: real, dx: real)
    requires u.Length == uPrev.Length == uNext.Length >= 2 && dx != 0.0
    requires u != uNext && uPrev != uNext
    modifies uNext
    ensures uNext[0] == old(uNext[0]) && uNext[uNext.Length - 1] == old(uNext[uNext.Length - 1])
    ensures forall i :: 1 <= i < uNext.Length - 1 ==>
              uNext[i] == Stencil(u[..], uPrev[..], CourantSquared(c, dt, dx), i)
    ensures old(uNext[0]) == 0.0 && old(uNext[uNext.Length - 1]) == 0.0 ==>
              uNext[..] == NextStep(u[..], uPrev[..], CourantSquared(c, dt, dx))
  {
    var n := uNext.Length;
    for i := 1 to n - 1
      invariant uNext[0] == old(uNext[0]) && uNext[n - 1] == old(uNext[n - 1])
      invariant forall k :: 1 <= k < i ==> uNext[k] == Stencil(u[..], uPrev[..], CourantSquared(c, dt, dx), k)
    {
      var C2 := CourantSquared(c, dt, dx);
      uNext[i] := Stencil(u[..], uPrev[..], C2, i);
    }
    if old(uNext[0]) == 0.0 && old(uNext[n - 1]) == 0.0 {
      assert uNext[..] == NextStep(u[..], uPrev[..], CourantSquared(c, dt, dx));
    }
  }

  /** u with its two ends set to zero: a field under the fixed-end policy. */
  function Pinned(u: seq<real>): (r: seq<real>)
    requires |u| >= 1
    ensures |r| == |u|
  {
    seq(|u|, i requires 0 <= i < |u| => if i == 0 || i == |u| - 1 then 0.0 else u[i])
  }

  /** Pinning keeps the interior, and pinning twice is pinning once. */
  lemma PinnedIdempotent(u: seq<real>)
    requires |u| >= 1
    ensures forall i :: 1 <= i < |u| - 1 ==> Pinned(u)[i] == u[i]
    ensures Pinned(Pinned(u)) == Pinned(u)
  {
  }

  /** With c = 0 the coefficient C2 vanishes and each interior entry is
      2*u[i] - u_prev[i]; when u and u_prev agree on the interior, the step
      returns u itself with pinned ends (the field is frozen). */
  lemma ZeroSpeedStep(u: seq<real>, uPrev: seq<real>, dt: real, dx: real)
    requires |u| == |uPrev| >= 1 && dx != 0.0
    ensures CourantSquared(0.0, dt, dx) == 0.0
    ensures forall i :: 1 <= i < |u| - 1 ==>
              NextStep(u, uPrev, CourantSquared(0.0, dt, dx))[i] == 2.0 * u[i] - uPrev[i]
    ensures (forall i :: 1 <= i < |u| - 1 ==> u[i] == uPrev[i]) ==>
              NextStep(u, uPrev, CourantSquared(0.0, dt, dx)) == Pinned(u)
  {
    var r := NextStep(u, uPrev, 0.0);
    if forall i :: 1 <= i < |u| - 1 ==> u[i] == uPrev[i] {
      assert forall i :: 0 <= i < |u| ==> r[i] == Pinned(u)[i];
    }
  }

  /** On mirror-symmetric u and u_prev the stencil at i and at its mirror
      index n-1-i agree: the two neighbours swap places. */
  lemma StencilMirrored(u: seq<real>, uPrev: seq<real>, C2: real, i: int)
    requires |u| == |uPrev| && 1 <= i < |u| - 1
    requires Mirrored(u) && Mirrored(uPrev)
    ensures Stencil(u, uPrev, C2, i) == Stencil(u, uPrev, C2, |u| - 1 - i)
  {
    var j := |u| - 1 - i;
    assert u[j] == u[i] && uPrev[j] == uPrev[i];
    assert u[j + 1] == u[i - 1] && u[j - 1] == u[i + 1];
    var lap := u[i + 1] - 2.0 * u[i] + u[i - 1];
    assert u[j + 1] - 2.0 * u[j] + u[j - 1] == lap;
  }

  /** A step maps mirror-symmetric u and u_prev to a mirror-symmetric field. */
  lemma NextStepMirrored(u: seq<real>, uPrev: seq<real>, C2: real)
    requires |u| == |uPrev| >= 1
    requires Mirrored(u) && Mirrored(uPrev)
    ensures Mirrored(NextStep(u, uPrev, C2))
  {
    var n := |u|;
    var r := NextStep(u, uPrev, C2);
    forall i, j | 0 <= i < n && 0 <= j < n && i + j == n - 1
      ensures r[i] == r[j]
    {
      if 1 <= i < n - 1 {
        StencilMirrored(u, uPrev, C2, i);
      }
    }
  }
}

/** main.py: the same scheme as a nested loop. The outer loop runs
    nt = int(T/dt) times; the inner loop overwrites u_next[1..nx-2] in
    place; then u_prev and u are rebound to copies of u and u_next. */
module LoopScript {
  import opened Parameters
  import opened Buffers
  import opened Fields
  import opened Stepper
  import opened Evolution

  /** One pass of the outer loop: the inner loop fills the interior of
      u_next in place, then u_prev becomes a copy of u and u a copy of
      u_next. The two levels rotate exactly as in Rotate, and u_next keeps
      its zero ends. */
  method Step(u: array<real>, uPrev: array<real>, uNext: array<real>, c: real, dt: real, dx: real)
    returns (u': array<real>, uPrev': array<real>)
    requires u.Length == uPrev.Length == uNext.Length >= 2 && dx != 0.0
    requires u != uNext && uPrev != uNext
    requires uNext[0] == 0.0 && uNext[uNext.Length - 1] == 0.0
    modifies uNext
    ensures fresh(u') && fresh(uPrev') && u' != uPrev'
    ensures u'.Length == uPrev'.Length == uNext.Length
    ensures uNext[..] == NextStep(old(u[..]), old(uPrev[..]), CourantSquared(c, dt, dx))
    ensures u'[..] == uNext[..] && uPrev'[..] == old(u[..])
    ensures uNext[0] == 0.0 && uNext[uNext.Length - 1] == 0.0
    ensures Levels(u'[..], uPrev'[..])
         == Rotate(Levels(old(u[..]), old(uPrev[..])), CourantSquared(c, dt, dx))
  {
    SweepInterior(u, uPrev, uNext, c, dt, dx);
    uPrev' := Copy(u);
    u' := Copy(uNext);
  }

  /** The outer loop `for n in range(nt)`: max(nt, 0) passes of Step, so
      the levels end as the max(nt, 0)-step evolution of the levels it was
      given. */
  method Steps(u0: array<real>, uPrev0: array<real>, uNext: array<real>, nt: int, c: real, dt: real, dx: real)
    returns (u: array<real>, uPrev: array<real>)
    requires u0.Length == uPrev0.Length == uNext.Length >= 2 && dx != 0.0
    requires u0 != uNext && uPrev0 != uNext && u0 != uPrev0
    requires uNext[0] == 0.0 && uNext[uNext.Length - 1] == 0.0
    modifies uNext
    ensures Levels(u[..], uPrev[..])
         == Evolve(Levels(old(u0[..]), old(uPrev0[..])), CourantSquared(c, dt, dx), Max0(nt))
    ensures u != uPrev && u != uNext && uPrev != uNext
    ensures Max0(nt) >= 1 ==> uNext[..] == u[..]
  {
    ghost var start := Levels(u0[..], uPrev0[..]);
    ghost var C2 := CourantSquared(c, dt, dx);
    u, uPrev := u0, uPrev0;
    var n := 0;
    while n < nt
      modifies uNext
      invariant 0 <= n <= Max0(nt)
      invariant u.Length == uPrev.Length == uNext.Length
      invariant u != uNext && uPrev != uNext && u != uPrev
      invariant uNext[0] == 0.0 && uNext[uNext.Length - 1] == 0.0
      invariant Levels(u[..], uPrev[..]) == Evolve(start, C2, n)
      invariant n >= 1 ==> uNext[..] == u[..]
    {
      ghost var next := Rotate(Evolve(start, C2, n), C2);
      assert next == Evolve(start, C2, n + 1);
      u, uPrev := Step(u, uPrev, uNext, c, dt, dx);
      n := n + 1;
    }
    assert n == Max0(nt);
  }

  /** The script with its parameters as arguments. It returns the grid and
      the two final levels. The levels are the max(nt, 0)-step evolution of
      the pulse; every step computed the same field as compute_next_step.
      After at least one step u has zero ends; with no step u is still the
      pulse (ends included) and equals u_prev. */
  method Simulate(L: real, T: real, c: real, nx: int, dt: real, pulse: real -> real)
    returns (x: array<real>, u: array<real>, uPrev: array<real>)
    requires nx >= 2 && L != 0.0 && dt != 0.0
    ensures x[..] == Grid(L, nx)
    ensures u != uPrev
    ensures Levels(u[..], uPrev[..])
         == Evolve(Initial(pulse, L, nx), CourantSquared(c, dt, L / (nx - 1) as real), Max0(FrameCount(T, dt)))
    ensures FrameCount(T, dt) >= 1 ==> u[0] == 0.0 && u[nx - 1] == 0.0
    ensures FrameCount(T, dt) <= 0 ==> u[..] == uPrev[..] == Sample(pulse, Grid(L, nx))
  {
    var dx := L / (nx - 1) as real;
    var nt := FrameCount(T, dt);
    var uNext := NewZeros(nx);
    x := FromSeq(Grid(L, nx));
    uPrev := FromSeq(Sample(pulse, x[..]));
    u := Copy(uPrev);
    u, uPrev := Steps(u, uPrev, uNext, nt, c, dt, dx);
  }

  /** The script itself: L = 10, T = 2, c = 1, nx = 100, dt = 0.05, so the
      outer loop runs exactly 40 times and the final u has zero ends. */
  method RunLoopScript(pulse: real -> real) returns (x: array<real>, u: array<real>)
    ensures x[..] == Grid(10.0, 100)
    ensures u[..] == Evolve(Initial(pulse, 10.0, 100), CourantSquared(1.0, 0.05, 10.0 / 99.0), 40).current
    ensures u[0] == 0.0 && u[99] == 0.0
  {
    assert FrameCount(2.0, 0.05) == 40 && Max0(40) == 40;
    assert 10.0 / (100 - 1) as real == 10.0 / 99.0;
    var uPrev;
    x, u, uPrev := Simulate(10.0, 2.0, 1.0, 100, 0.05, pulse);
  }
}

/** Physical and simulation parameters of the leapfrog wave solver, the
    derived grid spacing, the Courant-number warning and the frame count
    int(T/dt). */
module Parameters {

  /** The parameter record: domain length, total time, wave speed, number of
      grid points, time step and the derived spacing dx. */
  datatype Params = Params(L: real, T: real, c: real, nx: int, dt: real, dx: real)

  /** The only failure of the derivation: a float division by zero. */
  datatype Error = ZeroDivision

  datatype Result<+R> = Success(value: R) | Failure(error: Error)

  /** What get_parameters produces: the parameters, and whether it printed
      the Courant-number warning on the way. */
  datatype Configured = Configured(params: Params, courantWarning: bool)

  /** The Courant number C = c*dt/dx. */
  function Courant(c: real, dt: real, dx: real): (C: real)
    requires dx != 0.0
    ensures C * dx == c * dt
  {
    c * dt / dx
  }

  /** C2 = (c*dt/dx)**2, the coefficient of the discrete Laplacian. */
  function CourantSquared(c: real, dt: real, dx: real): (r: real)
    requires dx != 0.0
    ensures r >= 0.0
    ensures r == 0.0 <==> c == 0.0 || dt == 0.0
  {
    var C := Courant(c, dt, dx);
    assert C == 0.0 <==> c * dt == 0.0;
    C * C
  }

  /** get_parameters with its five literals lifted to arguments: dx is
      L/(nx-1); the warning is raised exactly when C > 1, and the parameters
      are returned whether or not it is. Python raises ZeroDivisionError when
      nx - 1 is 0, and again when dx is 0 (so L is 0) in computing C. */
  function DeriveParameters(L: real, T: real, c: real, nx: int, dt: real): (r: Result<Configured>)
    ensures r.Failure? <==> nx == 1 || L == 0.0
    ensures r.Success? ==>
      var p := r.value.params;
      && p.L == L && p.T == T && p.c == c && p.nx == nx && p.dt == dt
      && p.dx != 0.0
      && p.dx * (nx - 1) as real == L
      && (r.value.courantWarning <==> c * dt * (nx - 1) as real / L > 1.0)
  {
    if nx - 1 == 0 then Failure(ZeroDivision)
    else
      var dx := L / (nx - 1) as real;
      if dx == 0.0 then Failure(ZeroDivision)
      else
        assert Courant(c, dt, dx) == c * dt * (nx - 1) as real / L;
        Success(Configured(Params(L, T, c, nx, dt, dx), Courant(c, dt, dx) > 1.0))
  }

  /** get_parameters itself: L = 10, T = 4, c = 1, nx = 100, dt = 0.05.
      With these, dx = 10/99 and C = 0.495, so no warning is printed. */
  function GetParameters(): (r: Configured)
    ensures r.params == Params(10.0, 4.0, 1.0, 100, 0.05, 10.0 / 99.0)
    ensures !r.courantWarning
  {
    DeriveParameters(10.0, 4.0, 1.0, 100, 0.05).value
  }

  /** Python's int() on a float: truncation toward zero. */
  function Truncate(q: real): (n: int)
    ensures q >= 0.0 ==> 0 <= n && n as real <= q < n as real + 1.0
    ensures q < 0.0 ==> n <= 0 && n as real - 1.0 < q <= n as real
  {
    if q >= 0.0 then q.Floor else -((-q).Floor)
  }

  /** The number of frames or steps, nt = int(T/dt). */
  function FrameCount(T: real, dt: real): (nt: int)
    requires dt != 0.0
    ensures T >= 0.0 && dt > 0.0 ==> nt >= 0
  {
    Truncate(T / dt)
  }

  /** For T >= 0 and dt > 0, int(T/dt) is the largest n with n*dt <= T:
      the steps it counts never overrun the total time T, and one more
      would. */
  lemma FrameCountBounds(T: real, dt: real)
    requires T >= 0.0 && dt > 0.0
    ensures FrameCount(T, dt) as real * dt <= T < (FrameCount(T, dt) as real + 1.0) * dt
  {
    ScaleQuotientBounds(T, dt, FrameCount(T, dt));
  }

  /** Multiplying n <= T/dt < n+1 through by dt > 0. */
  lemma ScaleQuotientBounds(T: real, dt: real, n: int)
    requires dt > 0.0 && n as real <= T / dt < n as real + 1.0
    ensures n as real * dt <= T < (n as real + 1.0) * dt
  {
    var q, m := T / dt, n as real;
    assert q * dt == T;
    var below, above := q - m, m + 1.0 - q;
    assert below * dt >= 0.0 && above * dt > 0.0;
    assert m * dt == q * dt - below * dt;
    assert (m + 1.0) * dt == above * dt + q * dt;
  }

  /** range(n) for a possibly negative n runs max(n, 0) times. */
  function Max0(n: int): (r: nat)
    ensures r as int >= n && (r == 0 || r == n)
  {
    if n < 0 then 0 else n
  }
}

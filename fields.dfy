/** The spatial grid, the initial Gaussian pulse and the mirror symmetry of
    a field (initialize_fields in main_modular.py). */
module Fields {
  import opened Buffers
  import opened Parameters

  /** np.linspace(0, L, nx): nx points from 0 to L inclusive. For a single
      point NumPy returns [0.0]. */
  function Grid(L: real, nx: nat): (x: seq<real>)
    ensures |x| == nx
  {
    if nx == 1 then [0.0]
    else
      var h := if nx == 0 then 0.0 else L / (nx - 1) as real;
      seq(nx, i requires 0 <= i < nx => i as real * h)
  }

  /** The grid starts at 0 and, with two or more points, ends exactly at L. */
  lemma GridEnds(L: real, nx: nat)
    requires nx >= 1
    ensures Grid(L, nx)[0] == 0.0
    ensures nx >= 2 ==> Grid(L, nx)[nx - 1] == L
  {
    if nx >= 2 {
      var k := (nx - 1) as real;
      assert Grid(L, nx)[nx - 1] == k * (L / k);
    }
  }

  /** Neighbouring grid points are dx = L/(nx-1) apart. */
  lemma GridEquallySpaced(L: real, nx: nat, i: nat)
    requires i + 1 < nx
    ensures Grid(L, nx)[i + 1] - Grid(L, nx)[i] == L / (nx - 1) as real
  {
    var h := L / (nx - 1) as real;
    var a := i as real;
    assert Grid(L, nx)[i + 1] == (a + 1.0) * h;
    assert Grid(L, nx)[i] == a * h;
  }

  /** The grid is symmetric about L/2: x[i] + x[nx-1-i] == L. */
  lemma GridMirror(L: real, nx: nat, i: nat)
    requires nx >= 2 && i < nx
    ensures Grid(L, nx)[i] + Grid(L, nx)[nx - 1 - i] == L
  {
    var k := (nx - 1) as real;
    var h := L / k;
    var a, b := i as real, (nx - 1 - i) as real;
    assert Grid(L, nx)[i] == a * h;
    assert Grid(L, nx)[nx - 1 - i] == b * h;
    assert a * h + b * h == (a + b) * h;
    assert a + b == k;
    assert k * h == L;
  }

  /** The pulse evaluated at every grid position: np.exp(-(x - L/2)**2)
      with the Gaussian taken as a parameter. */
  function Sample(pulse: real -> real, x: seq<real>): (v: seq<real>)
    ensures |v| == |x|
    ensures forall i :: 0 <= i < |x| ==> v[i] == pulse(x[i])
  {
    seq(|x|, i requires 0 <= i < |x| => pulse(x[i]))
  }

  /** v[i] == v[n-1-i] at every index: entries at positions i and j with
      i + j == n - 1 agree. */
  predicate Mirrored(v: seq<real>)
  {
    forall i, j :: 0 <= i < |v| && 0 <= j < |v| && i + j == |v| - 1 ==> v[i] == v[j]
  }

  /** The Gaussian exp(-(x - L/2)**2) takes the same value at x and L - x. */
  ghost predicate SymmetricAbout(pulse: real -> real, L: real)
  {
    forall y :: pulse(y) == pulse(L - y)
  }

  /** A pulse symmetric about L/2, sampled on the grid, is mirror-symmetric. */
  lemma InitialPulseMirrored(pulse: real -> real, L: real, nx: nat)
    requires SymmetricAbout(pulse, L)
    ensures Mirrored(Sample(pulse, Grid(L, nx)))
  {
    var x := Grid(L, nx);
    var v := Sample(pulse, x);
    forall i, j | 0 <= i < nx && 0 <= j < nx && i + j == nx - 1
      ensures v[i] == v[j]
    {
      if nx >= 2 {
        GridMirror(L, nx, i);
        assert x[nx - 1 - i] == L - x[i];
        assert pulse(x[i]) == pulse(L - x[i]);
      }
    }
  }

  /** initialize_fields: the grid, u and u_prev both holding the pulse on
      the grid, u a separate copy of u_prev, and u_next all zeros. The ends
      of the pulse are NOT forced to zero: u[0] is pulse(0) and u[nx-1] is
      pulse(L). */
  method InitializeFields(p: Params, pulse: real -> real)
    returns (x: array<real>, u: array<real>, uPrev: array<real>, uNext: array<real>)
    requires p.nx >= 0
    ensures fresh(x) && fresh(u) && fresh(uPrev) && fresh(uNext)
    ensures u != uPrev && u != uNext && uPrev != uNext
    ensures x != u && x != uPrev && x != uNext
    ensures x[..] == Grid(p.L, p.nx)
    ensures uPrev[..] == Sample(pulse, Grid(p.L, p.nx))
    ensures u[..] == uPrev[..]
    ensures uNext[..] == Zeros(p.nx)
    ensures p.nx >= 1 ==> u[0] == pulse(0.0)
    ensures p.nx >= 2 ==> u[p.nx - 1] == pulse(p.L)
  {
    x := FromSeq(Grid(p.L, p.nx));
    uNext := NewZeros(p.nx);
    uPrev := FromSeq(Sample(pulse, x[..]));
    u := Copy(uPrev);
    if p.nx >= 1 {
      GridEnds(p.L, p.nx);
    }
  }
}

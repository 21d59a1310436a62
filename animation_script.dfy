/** main_animation.py: module-level parameters and buffers, and an update
    callback that overwrites the interior of the one global u_next buffer
    in place and then rebinds u_prev and u to copies. The globals become
    the fields of an Animation object. */
module AnimationScript {
  import opened Parameters
  import opened Buffers
  import opened Fields
  import opened Stepper
  import opened Evolution

  class Animation {
    const L: real
    const T: real
    const c: real
    const nx: int
    const dx: real
    const dt: real
    const nt: int
    const x: array<real>
    var u: array<real>
    var uPrev: array<real>
    /** The reused scratch buffer; `global u_next` never rebinds it. */
    const uNext: array<real>
    /** The number of update calls made so far. */
    ghost var frames: nat

    /** The grid is fixed, u and u_prev are never aliases of u_next, and
        the ends of u_next keep the zeros they were allocated with. */
    ghost predicate Valid()
      reads this, x, uNext
    {
      && nx >= 2 && dx != 0.0
      && x.Length == u.Length == uPrev.Length == uNext.Length == nx
      && x[..] == Grid(L, nx)
      && u != uNext && uPrev != uNext && x != uNext && u != uPrev
      && uNext[0] == 0.0 && uNext[nx - 1] == 0.0
    }

    /** The two time levels u and u_prev. */
    ghost function State(): (s: Levels)
      reads this, u, uPrev
      requires u.Length == uPrev.Length >= 1
      ensures Aligned(s)
    {
      Levels(u[..], uPrev[..])
    }

    /** C2 = (c*dt/dx)**2, the same at every index and every frame. */
    function C2(): (r: real)
      requires dx != 0.0
    {
      CourantSquared(c, dt, dx)
    }

    /** The module-level set-up: dx = L/(nx-1), nt = int(T/dt), the grid,
        u_prev the pulse on the grid, u a copy of it and u_next zeros. */
    constructor (L: real, T: real, c: real, nx: int, dt: real, pulse: real -> real)
      requires nx >= 2 && L != 0.0 && dt != 0.0
      ensures Valid()
      ensures this.L == L && this.T == T && this.c == c && this.nx == nx && this.dt == dt
      ensures dx == L / (nx - 1) as real && dx * (nx - 1) as real == L
      ensures nt == FrameCount(T, dt)
      ensures State() == Initial(pulse, L, nx)
      ensures uNext[..] == Zeros(nx)
      ensures fresh(x) && fresh(u) && fresh(uPrev) && fresh(uNext)
      ensures x != u && x != uPrev
      ensures frames == 0
    {
      var grid := FromSeq(Grid(L, nx));
      var zeros := NewZeros(nx);
      var pulseOnGrid := FromSeq(Sample(pulse, grid[..]));
      var copied := Copy(pulseOnGrid);
      this.L, this.T, this.c, this.nx, this.dt := L, T, c, nx, dt;
      dx := L / (nx - 1) as real;
      nt := FrameCount(T, dt);
      x := grid;
      uNext := zeros;
      uPrev := pulseOnGrid;
      u := copied;
      frames := 0;
    }

    /** update(frame): the loop over i in 1..nx-2 writes the stencil of the
        old u and u_prev into u_next; then u_prev is a copy of the old u and
        u a copy of u_next. The new u is what compute_next_step would return
        for the old levels, and its ends are zero. */
    method Update(frame: int)
      requires Valid()
      modifies this, uNext
      ensures Valid()
      ensures fresh(u) && fresh(uPrev)
      ensures uPrev[..] == old(u[..])
      ensures u[..] == uNext[..]
      ensures forall i :: 1 <= i < nx - 1 ==> u[i] == Stencil(old(u[..]), old(uPrev[..]), C2(), i)
      ensures u[0] == 0.0 && u[nx - 1] == 0.0
      ensures State() == Rotate(old(State()), C2())
      ensures frames == old(frames) + 1
    {
      SweepInterior(u, uPrev, uNext, c, dt, dx);
      uPrev := Copy(u);
      u := Copy(uNext);
      frames := frames + 1;
    }

    /** FuncAnimation(fig, update, frames=nt): update runs nt times (no
        times when nt is negative). */
    method Animate()
      requires Valid()
      modifies this, uNext
      ensures Valid()
      ensures State() == Evolve(old(State()), C2(), Max0(nt))
      ensures frames == old(frames) + Max0(nt)
    {
      ghost var start := State();
      var frame := 0;
      while frame < nt
        invariant Valid()
        invariant 0 <= frame <= Max0(nt)
        invariant State() == Evolve(start, C2(), frame)
        invariant frames == old(frames) + frame
      {
        Update(frame);
        frame := frame + 1;
      }
      assert frame == Max0(nt);
    }
  }

  /** The script itself: L = 10, T = 4, c = 1, nx = 100, dt = 0.05, so
      dx = 10/99 and nt = 80 frames, each one step of the scheme. */
  method RunAnimationScript(pulse: real -> real) returns (anim: Animation)
    ensures anim.Valid()
    ensures anim.dx == 10.0 / 99.0 && anim.nt == 80 && anim.frames == 80
    ensures anim.State() == Evolve(Initial(pulse, 10.0, 100), anim.C2(), 80)
  {
    anim := new Animation(10.0, 4.0, 1.0, 100, 0.05, pulse);
    assert anim.nt == 80 && anim.dx == 10.0 / 99.0;
    anim.Animate();
  }
}

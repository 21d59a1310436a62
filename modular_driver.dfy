/** The driver of main_modular.py: run_simulation's state list [u, u_prev]
    becomes the fields of a Simulation object, and its update closure a
    method that rotates them. FuncAnimation is a plain loop calling update
    total_frames times. */
module ModularDriver {
  import opened Parameters
  import opened Fields
  import opened Stepper
  import opened Evolution

  class Simulation {
    const params: Params
    /** state[0]: the current time level. */
    var current: array<real>
    /** state[1]: the previous time level. */
    var previous: array<real>
    /** The number of update calls made so far. */
    ghost var frames: nat

    ghost predicate Valid()
      reads this
    {
      && current.Length == previous.Length == params.nx >= 1
      && params.dx != 0.0
      && current != previous
    }

    /** The two time levels held in the state list. */
    ghost function State(): (s: Levels)
      reads this, current, previous
      requires Valid()
      ensures Aligned(s)
    {
      Levels(current[..], previous[..])
    }

    /** C2 = (c*dt/dx)**2 for these parameters. */
    function C2(): (r: real)
      requires params.dx != 0.0
    {
      CourantSquared(params.c, params.dt, params.dx)
    }

    /** state = [u, u_prev]. */
    constructor (p: Params, u: array<real>, uPrev: array<real>)
      requires u.Length == uPrev.Length == p.nx >= 1 && p.dx != 0.0 && u != uPrev
      ensures Valid()
      ensures params == p && current == u && previous == uPrev && frames == 0
    {
      params := p;
      current := u;
      previous := uPrev;
      frames := 0;
    }

    /** update(frame): state[1] becomes the old state[0] (the same array,
        not a copy), and state[0] the fresh array compute_next_step returns
        for the old state[0] and state[1]. No array is written. */
    method Update(frame: int)
      requires Valid()
      modifies this
      ensures Valid()
      ensures previous == old(current)
      ensures fresh(current)
      ensures State() == Rotate(old(State()), C2())
      ensures frames == old(frames) + 1
    {
      var currentU, oldU := current, previous;
      var newU := ComputeNextStep(currentU, oldU, params);
      previous := currentU;
      current := newU;
      frames := frames + 1;
    }

    /** FuncAnimation(fig, update, frames=totalFrames): update is called
        for frame = 0, 1, ..., totalFrames - 1. */
    method Animate(totalFrames: int)
      requires Valid()
      modifies this
      ensures Valid()
      ensures State() == Evolve(old(State()), C2(), Max0(totalFrames))
      ensures frames == old(frames) + Max0(totalFrames)
    {
      ghost var start := State();
      var frame := 0;
      while frame < totalFrames
        invariant Valid()
        invariant 0 <= frame <= Max0(totalFrames)
        invariant State() == Evolve(start, C2(), frame)
        invariant frames == old(frames) + frame
      {
        Update(frame);
        frame := frame + 1;
      }
      assert frame == Max0(totalFrames);
    }
  }

  /** run_simulation without the plotting: parameters, fields, the state
      list, and int(T/dt) = 80 calls of update. The final current level is
      the 80-step evolution of the pulse; from the first step on its ends
      are zero, and a pulse symmetric about L/2 gives a mirror-symmetric
      result. */
  method RunSimulation(pulse: real -> real) returns (sim: Simulation)
    ensures sim.Valid()
    ensures sim.params == GetParameters().params
    ensures sim.frames == 80
    ensures sim.State() == Evolve(Initial(pulse, 10.0, 100), sim.C2(), 80)
  {
    var params := GetParameters().params;
    var x, u, uPrev, uNext := InitializeFields(params, pulse);
    sim := new Simulation(params, u, uPrev);
    var totalFrames := FrameCount(params.T, params.dt);
    assert totalFrames == 80;
    sim.Animate(totalFrames);
  }
}

/** Several steps of the scheme: the two meaningful time levels, their
    rotation after each step, and what holds after k steps. */
module Evolution {
  import opened Fields
  import opened Stepper

  /** The current time level n and the previous one n - 1. */
  datatype Levels = Levels(current: seq<real>, previous: seq<real>)

  predicate Aligned(s: Levels)
  {
    |s.current| == |s.previous| >= 1
  }

  /** One update: the next level is computed from the current and previous
      ones, then previous <- current and current <- next. */
  function Rotate(s: Levels, C2: real): (r: Levels)
    requires Aligned(s)
    ensures Aligned(r) && |r.current| == |s.current|
    ensures r.previous == s.current
    ensures r.current[0] == 0.0 && r.current[|r.current| - 1] == 0.0
  {
    Levels(NextStep(s.current, s.previous, C2), s.current)
  }

  /** The levels after k updates starting from s. */
  function Evolve(s: Levels, C2: real, k: nat): (r: Levels)
    requires Aligned(s)
    ensures Aligned(r) && |r.current| == |s.current|
    ensures k >= 1 ==> r.current[0] == 0.0 && r.current[|r.current| - 1] == 0.0
    decreases k
  {
    if k == 0 then s else Rotate(Evolve(s, C2, k - 1), C2)
  }

  /** The initial levels: u and u_prev both hold the pulse on the grid. */
  function Initial(pulse: real -> real, L: real, nx: nat): (s: Levels)
    requires nx >= 1
    ensures Aligned(s) && s.current == s.previous && |s.current| == nx
  {
    var v := Sample(pulse, Grid(L, nx));
    Levels(v, v)
  }

  /** Once two steps have run, both levels have zero ends. */
  lemma {:induction false} BothLevelsPinned(s: Levels, C2: real, k: nat)
    requires Aligned(s) && k >= 2
    ensures var r := Evolve(s, C2, k);
      r.previous[0] == 0.0 && r.previous[|r.previous| - 1] == 0.0
  {
    assert Evolve(s, C2, k).previous == Evolve(s, C2, k - 1).current;
  }

  /** One update keeps both levels mirror-symmetric. */
  lemma RotateMirrored(s: Levels, C2: real)
    requires Aligned(s) && Mirrored(s.current) && Mirrored(s.previous)
    ensures Mirrored(Rotate(s, C2).current) && Mirrored(Rotate(s, C2).previous)
  {
    NextStepMirrored(s.current, s.previous, C2);
  }

  /** Mirror symmetry of both levels is kept by every number of steps. */
  lemma {:induction false} EvolveMirrored(s: Levels, C2: real, k: nat)
    requires Aligned(s) && Mirrored(s.current) && Mirrored(s.previous)
    ensures Mirrored(Evolve(s, C2, k).current) && Mirrored(Evolve(s, C2, k).previous)
    decreases k
  {
    if k > 0 {
      var t := Evolve(s, C2, k - 1);
      EvolveMirrored(s, C2, k - 1);
      RotateMirrored(t, C2);
      assert Evolve(s, C2, k) == Rotate(t, C2);
    }
  }

  /** A pulse symmetric about L/2 stays mirror-symmetric at every step. */
  lemma SymmetricPulseStaysMirrored(pulse: real -> real, L: real, nx: nat, C2: real, k: nat)
    requires nx >= 1 && SymmetricAbout(pulse, L)
    ensures Mirrored(Evolve(Initial(pulse, L, nx), C2, k).current)
  {
    InitialPulseMirrored(pulse, L, nx);
    EvolveMirrored(Initial(pulse, L, nx), C2, k);
  }

  /** With C2 = 0, an update whose two levels agree on the interior leaves
      the current level unchanged apart from pinning its ends. */
  lemma ZeroSpeedRotate(s: Levels)
    requires Aligned(s)
    requires forall i :: 1 <= i < |s.current| - 1 ==> s.current[i] == s.previous[i]
    ensures Rotate(s, 0.0).current == Pinned(s.current)
  {
    ZeroSpeedStep(s.current, s.previous, 0.0, 1.0);
  }

  /** Proof helper for ZeroSpeedFrozen: a field agrees on the interior both
      with itself and with its end-zeroed version. */
  lemma InteriorAgrees(u0: seq<real>, prev: seq<real>)
    requires |u0| >= 1 && (prev == u0 || prev == Pinned(u0))
    ensures |prev| == |u0|
    ensures forall i :: 1 <= i < |u0| - 1 ==> Pinned(u0)[i] == prev[i]
  {
    PinnedIdempotent(u0);
  }

  /** With C2 = 0 (c = 0) and equal starting levels, every step from the
      first on leaves the current level at the starting field with its ends
      pinned: the field is frozen. */
  lemma {:induction false} ZeroSpeedFrozen(u0: seq<real>, k: nat)
    requires |u0| >= 1 && k >= 1
    ensures Evolve(Levels(u0, u0), 0.0, k).current == Pinned(u0)
    ensures k >= 2 ==> Evolve(Levels(u0, u0), 0.0, k).previous == Pinned(u0)
    decreases k
  {
    var s := Levels(u0, u0);
    if k == 1 {
      ZeroSpeedRotate(s);
    } else {
      var t := Evolve(s, 0.0, k - 1);
      ZeroSpeedFrozen(u0, k - 1);
      PinnedIdempotent(u0);
      var prev := if k == 2 then u0 else Pinned(u0);
      assert t == Levels(Pinned(u0), prev);
      InteriorAgrees(u0, prev);
      ZeroSpeedRotate(Levels(Pinned(u0), prev));
    }
  }
}

# 1-D wave solver: the leapfrog scheme in Dafny

This project models the core of a small Python solver for the 1-D wave equation u_tt = c²·u_xx on [0, L] with fixed zero ends. The solver uses the explicit second-order central-difference ("leapfrog") scheme:

    u_next[i] = 2·u[i] − u_prev[i] + C2·(u[i+1] − 2·u[i] + u[i−1]),   C2 = (c·dt/dx)²

The repository writes this kernel three times, and the model follows each one in its own form:

- **`src/main_modular.py`** has four pieces:
  - `get_parameters` derives dx = L/(nx−1) and the Courant-number warning;
  - `initialize_fields` builds the grid and the three buffers;
  - `compute_next_step` is a vectorised NumPy slice expression written into a fresh array whose ends are then set to 0;
  - the `update` closure rotates the state list `[u, u_prev]`.

  The pure parts are Dafny functions over `seq<real>` (modules `Parameters`, `Fields`, `Stepper`). The closure and its state list become the class `ModularDriver.Simulation`.
- **`src/main_animation.py`** keeps the solver state in module-level globals. Its `update(frame)` overwrites `u_next[1..nx-2]` in place with a `for` loop and then rebinds `u_prev` and `u` to copies. The globals become the fields of the class `AnimationScript.Animation`. The in-place loop is the method `Stepper.SweepInterior`.
- **`src/main.py`** runs the same scheme as a nested loop (module `LoopScript`). Its inner loop is the same `SweepInterior`.

Everything is specified against one reference. `Stepper.NextStep` is the step as the scheme defines it: the stencil at each interior index, and 0 at both ends. Module `Evolution` defines what several steps do:
- `Rotate`: previous ← current, current ← NextStep;
- `Evolve`: k rotations.

Each of the three drivers is proved to produce exactly `Evolve(Initial(pulse, L, nx), C2, max(nt, 0))`, with nt = int(T/dt). The proved properties are:
- boundary pinning;
- the interior formula at every index;
- that the vectorised and in-place forms compute the same field;
- that inputs are left unmodified and that buffers never alias;
- the step count;
- that c = 0 freezes the field;
- that mirror symmetry is preserved.

Modelling choices:
- Floats are modelled as `real`.
- The Gaussian `np.exp(-(x - L/2)**2)` is a parameter `pulse: real -> real`. Symmetry of the Gaussian about L/2 is the predicate `SymmetricAbout(pulse, L)`.
- The `print` warning is the Boolean `courantWarning`.
- `FuncAnimation` is a plain loop calling `update` for frames 0..nt−1.

## Model

| member | source | states |
|---|---|---|
| Buffers.NewZeros | src/main_modular.py:43 | np.zeros(n) is a fresh array of n zeros. |
| Buffers.Copy | src/main_modular.py:52 | np.copy(a) is a fresh array (never an alias of a) with the same contents as a. |
| Buffers.FromSeq | src/main_modular.py:47 | A vectorised NumPy expression produces a fresh array holding its values. |
| Parameters.Courant | src/main_modular.py:22 | The Courant number C = c·dt/dx is defined by C·dx = c·dt. |
| Parameters.CourantSquared | src/main_modular.py:69 | C2 = (c·dt/dx)² is non-negative. It is zero exactly when c = 0 or dt = 0. |
| Parameters.DeriveParameters | src/main_modular.py:7-26 | The computation fails (ZeroDivisionError) exactly when nx = 1 or L = 0. Otherwise it returns the given L, T, c, nx, dt and a non-zero dx with dx·(nx−1) = L. The warning flag is raised exactly when the Courant number c·dt/dx = c·dt·(nx−1)/L exceeds 1. The parameters are returned whether or not the flag is raised. |
| Parameters.GetParameters | src/main_modular.py:11-26 | The literal parameters are L = 10, T = 4, c = 1, nx = 100, dt = 0.05. They give dx = 10/99, and no warning is printed. |
| Parameters.Truncate | src/main.py:11 | int() on a float truncates toward zero. For q ≥ 0 the result n satisfies 0 ≤ n ≤ q < n+1. For q < 0 it satisfies n−1 < q ≤ n ≤ 0. |
| Parameters.FrameCount | src/main.py:11 | nt = int(T/dt) is a natural number when T ≥ 0 and dt > 0. FrameCountBounds bounds it. |
| Parameters.FrameCountBounds | src/main_animation.py:12 | For T ≥ 0 and dt > 0, nt = int(T/dt) satisfies nt·dt ≤ T < (nt+1)·dt. The counted steps never overrun T, and one more step would. |
| Parameters.Max0 | src/main.py:24 | range(nt) runs max(nt, 0) times: the count is at least nt, and it is either 0 or nt. |
| Fields.Grid | src/main_modular.py:38 | np.linspace(0, L, nx) has exactly nx points (with [0.0] for one point). The values are given by GridEnds, GridEquallySpaced and GridMirror. |
| Fields.Sample | src/main_modular.py:47 | The pulse on the grid, np.exp(-(x - L/2)**2) in all three scripts (main_animation.py:22, main.py:20), with the Gaussian as the parameter pulse: one entry per grid point, and entry i is pulse(x[i]). |
| Fields.GridEnds | src/main_modular.py:38 | The grid starts at x[0] = 0. With two or more points it ends exactly at x[nx−1] = L. |
| Fields.GridEquallySpaced | src/main_modular.py:38 | Neighbouring grid points are exactly L/(nx−1) = dx apart. |
| Fields.GridMirror | src/main_modular.py:38 | The grid is symmetric about L/2: x[i] + x[nx−1−i] = L. |
| Fields.InitialPulseMirrored | src/main_modular.py:47 | A pulse symmetric about L/2 (as the Gaussian centred at L/2 is), sampled on the grid, gives a mirror-symmetric field: v[i] = v[nx−1−i]. |
| Fields.InitializeFields | src/main_modular.py:28-54 | x, u, u_prev and u_next are freshly allocated and all have length nx. x is the linspace grid, u_prev is the pulse on the grid, and u equals u_prev. The four arrays are pairwise distinct. u_next is all zeros. The ends of u are the pulse's values at 0 and L, not forced to zero. |
| Stepper.Stencil | src/main.py:26 | The update line of main.py:26 and main_animation.py:45 is the discrete wave equation solved for the next level. The second difference in time, (next − u[i]) − (u[i] − u_prev[i]), equals C2 times the second difference in space, (u[i+1] − u[i]) − (u[i] − u[i−1]). |
| Stepper.Plus | src/main_modular.py:73 | NumPy's elementwise + on equal-length slices: the same length, and entry i is a[i] + b[i]. |
| Stepper.Minus | src/main_modular.py:73 | NumPy's elementwise − on equal-length slices: the same length, and entry i is a[i] − b[i]. |
| Stepper.Times | src/main_modular.py:73 | NumPy's scalar * on a slice: the same length, and entry i is k·a[i]. |
| Stepper.InteriorPointwise | src/main_modular.py:72-73 | Entry j of the slice expression is the stencil at index j+1. The slices u[2:] and u[:-2] supply the right and left neighbours, and u_prev[1:-1] the previous level. |
| Stepper.NextStep | src/main_modular.py:75-77 | The reference step has the length of u, and its entries 0 and nx−1 are exactly 0. |
| Stepper.Interior | src/main_modular.py:73 | The vectorised right-hand side has one entry per interior index (nx−2). InteriorPointwise gives each entry. |
| Stepper.SlicedStep | src/main_modular.py:68-77 | compute_next_step as written (zeros, the slice assignment, then both ends set to 0) has the length of u and exactly 0 at entries 0 and nx−1. SlicedStepIsNextStep gives its interior. |
| Stepper.SlicedStepIsNextStep | src/main_modular.py:68-79 | For every u and u_prev of equal length ≥ 1, the vectorised compute_next_step equals the pointwise scheme. That means zero ends and 2·u[i] − u_prev[i] + C2·(u[i+1] − 2·u[i] + u[i−1]) at every interior i, with one C2 for all indices. |
| Stepper.ComputeNextStep | src/main_modular.py:58-79 | The result is a freshly allocated array with the scheme's step for C2 = (c·dt/dx)². u and u_prev are left unchanged. |
| Stepper.SweepInterior | src/main_animation.py:43-45 | The loop over i in 1..nx−2 leaves the two ends of u_next untouched, and each interior entry equals the stencil of u and u_prev. u and u_prev are not modified. When the ends of u_next held 0, u_next holds exactly what compute_next_step returns. |
| Stepper.PinnedIdempotent | src/main_modular.py:76-77 | Setting both ends to 0 keeps the interior, and doing it twice is the same as doing it once. |
| Stepper.ZeroSpeedStep | src/main_modular.py:69-77 | With c = 0, C2 = 0 and each interior entry of the step is 2·u[i] − u_prev[i]. When u and u_prev agree on the interior, the step returns u with its ends set to 0 (the field is frozen). |
| Stepper.StencilMirrored | src/main_modular.py:73 | On mirror-symmetric u and u_prev, the stencil at i and at its mirror index nx−1−i agree. |
| Stepper.NextStepMirrored | src/main_modular.py:73-77 | If u and u_prev are mirror-symmetric, so is the result of the step. |
| Evolution.Rotate | src/main_modular.py:106-114 | One update: the new previous level is the old current one, and the new current level has zero ends and the same length. |
| Evolution.Evolve | src/main_modular.py:121-122 | After k updates the levels keep their length. From the first update on, the current level has zero ends. |
| Evolution.Initial | src/main_modular.py:47-52 | Initially both levels are the pulse on the grid and are equal. |
| Evolution.BothLevelsPinned | src/main.py:29-30 | After two or more steps, u_prev also has zero ends. |
| Evolution.RotateMirrored | src/main_modular.py:106-114 | One update keeps both levels mirror-symmetric. |
| Evolution.EvolveMirrored | src/main_modular.py:121-122 | Any number of updates keeps both levels mirror-symmetric (by induction on the step count). |
| Evolution.SymmetricPulseStaysMirrored | src/main_modular.py:47-52 | A pulse symmetric about L/2 gives a mirror-symmetric current level after every number of steps. |
| Evolution.ZeroSpeedRotate | src/main_modular.py:106-114 | With C2 = 0, an update whose levels agree on the interior returns the current level with its ends set to 0. |
| Evolution.ZeroSpeedFrozen | src/main_modular.py:52 | With c = 0 and u = u_prev initially, every step from the first on leaves u at the initial field with its ends set to 0. From the second step on u_prev is the same. |
| ModularDriver.Simulation.constructor | src/main_modular.py:104 | state = [u, u_prev]: the object holds exactly the given arrays and parameters, and no frame has run yet. |
| ModularDriver.Simulation.Update | src/main_modular.py:106-114 | state[1] becomes the old state[0] (the same array, not a copy). state[0] becomes a fresh array holding compute_next_step of the old state[0] and state[1]. This is exactly one Rotate of the levels, and the frame count grows by one. |
| ModularDriver.Simulation.Animate | src/main_modular.py:121-122 | max(total_frames, 0) update calls leave the levels at the Evolve of the starting levels by that many steps. |
| ModularDriver.RunSimulation | src/main_modular.py:83-122 | With get_parameters' values there are int(T/dt) = 80 frames. Each frame calls update once, and after those 80 calls the state is the 80-step evolution of the pulse. |
| AnimationScript.Animation.constructor | src/main_animation.py:6-23 | dx = L/(nx−1), with dx·(nx−1) = L, and nt = int(T/dt). x is the grid, u and u_prev are equal copies of the pulse, and u_next is all zeros. All four arrays are fresh and distinct. |
| AnimationScript.Animation.Update | src/main_animation.py:39-53 | u_next is written only at 1..nx−2 and never aliases u or u_prev. The new u_prev equals the old u. The new u is a fresh copy of u_next: at every interior i it is the stencil of the old u and u_prev (same C2 everywhere), and its ends are 0. The levels rotate exactly as in compute_next_step. |
| AnimationScript.Animation.Animate | src/main_animation.py:58 | One update call for each of the frames 0..nt−1 (none when nt ≤ 0). After those max(nt, 0) calls the levels are that many steps of Evolve. |
| AnimationScript.RunAnimationScript | src/main_animation.py:6-58 | With the script's literals, dx = 10/99 and nt = 80. Each of the 80 frames calls update once, and after those 80 calls the levels are the 80-step evolution of the pulse. |
| LoopScript.Step | src/main.py:25-30 | One pass of the outer loop leaves u_next holding exactly compute_next_step of that step's u and u_prev: the stencil on the interior, and its zero ends kept. The new u_prev is a copy of the old u, and the new u a copy of u_next. They are two fresh, distinct arrays. Together that is one Rotate of the levels. |
| LoopScript.Steps | src/main.py:24-30 | The outer loop performs max(nt, 0) passes, and the levels end as that many steps of Evolve. After at least one pass, u_next holds the same values as u. u, u_prev and u_next stay pairwise distinct throughout. |
| LoopScript.Simulate | src/main.py:4-30 | The script, with its literals as arguments, returns the grid and the levels after max(int(T/dt), 0) steps. After at least one step u has zero ends. With no step u is still the pulse (ends included) and equals u_prev. u and u_prev are distinct arrays. |
| LoopScript.RunLoopScript | src/main.py:4-30 | With L = 10, T = 2, c = 1, nx = 100 and dt = 0.05 the outer loop runs exactly 40 times. The final u is the 40-step evolution and has zero ends. |

## Left out

- All plotting and file output are left out: figure and axis set-up, `line.set_ydata`, `anim.save`, `plt.savefig`, `plt.show` and the `print` messages. The Courant warning is modelled as the flag `courantWarning`.
- `FuncAnimation`'s scheduling is left out: its interval and its blitting. It is modelled as `update` called once per frame for frames 0..nt−1. With no `init_func`, matplotlib also calls `update` to draw the first frame, and `anim.save` may draw frames again. Each such extra call advances the levels by one more step, so the program's final state and saved frames are shifted from what `ModularDriver.RunSimulation` and `AnimationScript.RunAnimationScript` state. Those members count only the one call per frame.
- `np.exp` is not modelled. The Gaussian is the parameter `pulse`, and its symmetry about L/2 is an assumption of the lemmas that use it (`SymmetricAbout`).
- Floating-point behaviour is not modelled, since all arithmetic is over `real`. That leaves out:
  - rounding in `np.linspace` and in `int(T/dt)`;
  - stability for C ≤ 1 and blow-up for C > 1;
  - the truncation-error order;
  - bit-exact symmetry.
- NumPy broadcasting errors are not modelled. Every step requires u and u_prev to have the same length, which all callers guarantee.
- The arrays `u = np.zeros(nx)` and `u_prev = np.zeros(nx)` are allocated and then immediately rebound. They are never observed, so they are not modelled.
- The globals and closure mechanics (`global`, the list `state`) are not modelled. They are the fields of a driver class.
- Stepper.NextStep, Stepper.ComputeNextStep: an empty field (nx = 0) is excluded by the requires. On it `u_next[0] = 0` raises IndexError.
- Stepper.SweepInterior: it requires at least two points and dx ≠ 0. Python evaluates `(c*dt/dx)**2` only when the loop body runs.
- AnimationScript.Animation.constructor: it requires nx ≥ 2, L ≠ 0 and dt ≠ 0. That leaves three cases of the script unmodelled:
  - nx = 1 or dt = 0: the script raises ZeroDivisionError at set-up.
  - L = 0: it raises only once an interior index is stepped, but the model excludes that case from the start.
  - nx ≤ 0: with nx = 0 the script runs to the end on empty arrays (dx = −L, and the loop over range(1, −1) is empty). With nx < 0 it raises ValueError in `np.linspace` or `np.zeros`.
- LoopScript.Simulate: it requires nx ≥ 2, L ≠ 0 and dt ≠ 0. The same cases are left out as for the constructor of `Animation`: ZeroDivisionError for nx = 1 or dt = 0, L = 0 only failing once the inner loop runs, a complete run on empty arrays for nx = 0, and ValueError in `np.zeros` for nx < 0.
- Fields.InitializeFields: it requires nx ≥ 0. For a negative nx, initialize_fields raises ValueError in `np.linspace` or `np.zeros`, and that error path is not modelled.
- The code validates no parameters. get_parameters fails only by division by zero, when nx = 1 or L = 0.
- The initial pulse's ends are not set to 0: u[0] = pulse(0) and u[nx−1] = pulse(L) until the first step.
- The code allocates a fresh array or copies on every step, and reuses no buffer as scratch except u_next in main_animation.py and main.py.

# Metropolis conformation optimiser — Dafny model

This project models the control logic of a Metropolis Monte Carlo optimiser for the
geometry of a small molecule. A conformation is a table of atom positions, and row 0
is the origin atom. In each iteration the optimiser does three things:

1. It perturbs every row except row 0 with Gaussian noise.
2. It evaluates a harmonic bond-length and bond-angle energy.
3. It accepts the trial by the Metropolis rule and records the best energy at
   regular intervals.

The project has two modules:

- `Imports` (`imports.dfy`) models `imports.py`:
  - the coordinate row `Vec3`;
  - the index pairs;
  - `get_pair_idx`, which returns every 2-combination of the row indices 1 .. n-1 in
    lexicographic order;
  - `angles_between`, only as the type of an uninterpreted function.
- `Metropolis` (`mcmc.dfy`) models `MCMC.py`:
  - the energy `GetEnergy`, the perturbation `Perturbate` and the acceptance rule
    `MetropolisStep`, written as functions;
  - the driver, written two ways:
    - as a specification function, `Iterate` / `Run`;
    - as the imperative method `MCMC.MetropolisAlgo` of the class `MCMC`, whose
      `while` loop is proved equal to `Run`.

What the model takes as inputs:

- **Numerics.** `np.linalg.norm`, `angles_between` and `np.exp` are uninterpreted
  functions, bundled in the `Numerics` datatype. The only property of `exp` that any
  lemma assumes is `exp(0) = 1`, and only the lemmas that need it assume it.
- **Randomness.** Each iteration `i` receives a `Draw(z, u)`:
  - `z` holds the standard-normal rows for the table's rows 1 .. n-1, scaled by
    `perturb_scale_gaussian` when they are used;
  - `u` is the uniform draw of the acceptance test.
- **Exceptions** are a `Result` with four cases:
  - `NegativeScale`: `np.random.normal` raises `ValueError` for a negative
    `perturb_scale_gaussian` (line 87). It is reached at line 62, before any energy
    comparison, so it comes first in every iteration.
  - `FloatDivisionByZero`: `-1/kT` with `kT == 0`. It is raised only when the trial is
    not lower, because line 72 runs only then.
  - `ModuloByZero`: `i % record_interval` with a zero interval. It is raised after
    the first step.
  - `EmptyTable`: numpy's `apply_along_axis` refuses a table with no rows, at line 23.

Python details that are modelled explicitly:

- **The step's flags are Python integers.** Acceptance returns `True`, which is 1.
  Rejection returns `~True`, which is -2 and is truthy. So the copy into the best pair
  at lines 37-39 runs on every iteration. As a result, `E_min == E_i` and
  `X_min == X_i` throughout the run; this is a loop invariant of `MetropolisAlgo` and
  the lemma `IterateInvariant`.
- **`record_interval` is an arbitrary integer.** Python's `%` and Dafny's `%` differ
  for negative divisors, but both are zero exactly when the divisor divides `i`. That
  zero test is the only use the source makes of `%`.
- **The trajectory length**, for a non-zero interval, is therefore
  `1 + max(iter_rounds, 0) / |record_interval|`, because `range(1, iter_rounds + 1)` is
  empty for `iter_rounds <= 0`.

Behaviours of the code that are easy to misread:

- The bond sum includes row 0: `apply_along_axis` runs over the whole table. So a
  one-atom table, which has no angle pairs, still has a bond energy (`SingleAtomEnergy`).
- Nothing checks the sign of kT. A negative kT runs, and a zero kT raises only in the
  "not lower" branch.
- The comment at MCMC.py:29 calls `E_min` the "lowest energy so far". In fact the best
  pair follows every step (`UphillMoveRaisesBest`), because the rejection flag
  `~Accept` is the truthy `-2` and not `False` (`RejectFlagIsTruthy`).

## Model

| member | source | states |
|---|---|---|
| Imports.Row | imports.py:42 | exactly the pairs (lo, j) with lo < j < hi, hi-lo-1 of them, in increasing j |
| Imports.CombinationsMembers | imports.py:40-42 | a pair is enumerated iff lo <= i < j < hi |
| Imports.CombinationsCount | imports.py:40-42 | for lo <= hi, twice the number of pairs is (hi-lo)(hi-lo-1) |
| Imports.Combinations | imports.py:42 | every listed pair lies within [lo, hi) with i < j |
| Imports.CombinationsSorted | imports.py:42 | the enumeration is strictly increasing in lexicographic order |
| Imports.GetPairIdx | imports.py:31-42 | exactly the pairs 1 <= i < j < n; index 0 never occurs; (n-1)(n-2)/2 of them for n >= 1; empty for n <= 2; strictly lexicographic, hence duplicate-free |
| Imports.PairIdxRowCountOnly | imports.py:40 | the result depends on the row count only |
| Imports.DefaultConformation | imports.py:31 | the default argument has 5 rows |
| Imports.DefaultPairIdx | imports.py:31-42 | the default 5-row table gives (1,2), (1,3), (1,4), (2,3), (2,4), (3,4) |
| Metropolis.BondSum | MCMC.py:99-101 | the row-wise sum of (norm(row) - r0)^2, every row included, is non-negative |
| Metropolis.AngleSum | MCMC.py:103-105 | the pairwise sum of (angle - theta0)^2 is non-negative |
| Metropolis.GetEnergy | MCMC.py:92-107 | the energy is non-negative when Kr, Ktheta >= 0; with no pairs it is the bond term alone |
| Metropolis.SingleAtomEnergy | MCMC.py:99-107 | a one-row table has no pairs, but its origin row keeps a bond term |
| Metropolis.BondSumAppend | MCMC.py:99-101 | the bond sum is additive over concatenated tables |
| Metropolis.BondSumCongruent | MCMC.py:99-101 | the bond sum depends on the rows only through their norms |
| Metropolis.AngleSumCongruent | MCMC.py:103-105 | the angle sum depends on the table only through the pairs' angles |
| Metropolis.AddNoise | MCMC.py:87-88 | the row count is kept; row 0 is unchanged; row k is input plus scaled noise |
| Metropolis.Perturbate | MCMC.py:82-90 | it raises NegativeScale iff the scale is negative; otherwise the row count is kept, row 0 is unchanged and row k is input plus scaled noise |
| Metropolis.PerturbateZero | MCMC.py:87-88 | with a zero scale or all-zero draws, AddNoise returns the input table |
| Metropolis.PerturbateUndo | MCMC.py:87-88 | perturbing by the negated draws restores the input |
| Metropolis.AcceptProb | MCMC.py:72 | the probability is exp((E_i - E_trial)/kT), and exp(0) for equal energies |
| Metropolis.BitNot | MCMC.py:79 | `~b` is falsy only for b == -1, and negative exactly for b >= 0 |
| Metropolis.MetropolisStep | MCMC.py:53-79 | it raises only NegativeScale or FloatDivisionByZero; every returned flag is truthy; the row count and row 0 are kept |
| Metropolis.StepRule | MCMC.py:59-79 | a negative scale raises NegativeScale; otherwise it raises iff the trial is not lower and kT == 0, with FloatDivisionByZero; it accepts iff the trial is lower or u <= exp(-(E_trial-E_i)/kT), returning the trial; otherwise it returns exactly (E_i, X_i, ~True); consistent energy in gives consistent energy out |
| Metropolis.LowerTrialAccepted | MCMC.py:66-68 | with a non-negative scale, a lower trial is accepted whatever u and kT are |
| Metropolis.EqualEnergyAccepted | MCMC.py:72-76 | with a non-negative scale, kT != 0, exp(0) = 1 and u < 1, an equal-energy trial is accepted |
| Metropolis.RejectFlagIsTruthy | MCMC.py:79 | ~True is -2: truthy and distinct from True |
| Metropolis.Init | MCMC.py:23-31 | current and best are the start and its energy; the trajectory is the single record (1, initial energy, kT) |
| Metropolis.Advance | MCMC.py:35-48 | one iteration keeps the row count and row 0, and never raises EmptyTable |
| Metropolis.Iterate | MCMC.py:23-48 | after i iterations the row count and row 0 are the start's; no EmptyTable |
| Metropolis.Run | MCMC.py:18-50 | it raises EmptyTable iff the table is empty; a returned run carries the kT passed in and a best table with the start's shape and origin row |
| Metropolis.IterateOkPrefix | MCMC.py:34-35 | a run that reaches iteration i succeeded at every earlier iteration |
| Metropolis.IterateInvariant | MCMC.py:23-39 | after every iteration E_min == E_i, X_min == X_i and E_i is the energy of X_i |
| Metropolis.IterateErrPersists | MCMC.py:34-35 | an exception ends the run: later iterations return the same error |
| Metropolis.AdvanceRecords | MCMC.py:41-48 | an iteration appends (i, E_min, kT) iff i is a multiple of the interval, else keeps the trajectory |
| Metropolis.Trajectory | MCMC.py:27-48 | the trajectory is the seeded record (1, initial energy, kT) followed by one record per multiple of the interval, in increasing order, 1 + i / abs(interval) records, all carrying kT |
| Metropolis.TrajectoryEnergies | MCMC.py:41-48 | each later record holds the best energy after exactly its round's number of iterations |
| Metropolis.RunProperties | MCMC.py:18-50 | a returned run has the kT passed in, a best table with the start's shape and origin row and the best energy, and the trajectory shape above |
| Metropolis.ZeroIntervalFails | MCMC.py:41 | a zero record interval raises once an iteration runs |
| Metropolis.NonZeroSucceeds | MCMC.py:34-48 | with a non-negative scale and kT and the interval non-zero, every iteration succeeds |
| Metropolis.NegativeScaleFails | MCMC.py:87 | a negative scale raises NegativeScale at the first iteration, and the run ends with it |
| Metropolis.RunOutcome | MCMC.py:18-50 | an empty table raises EmptyTable; a zero interval raises once an iteration runs; a negative scale raises NegativeScale once an iteration runs; with a non-negative scale, non-zero kT and interval return, and kT == 0 with a not-lower first trial raises FloatDivisionByZero |
| Metropolis.ZeroNoiseStaysAtStart | MCMC.py:34-48 | with a zero scale, kT != 0, a non-zero interval, exp(0) = 1 and every u < 1, every trial is accepted and the state and every record stay at the start |
| Metropolis.EndToEndZeroNoise | MCMC.py:18-50 | a 4-atom table with Kr=367, r0=1.08, Ktheta=35, theta0=109.5, kT=0.6, zero noise, 10 rounds and interval 5 returns the start with records at rounds 1, 5 and 10, all holding the initial energy |
| Metropolis.UphillMoveRaisesBest | MCMC.py:37-39 | with a non-negative scale, an accepted uphill trial raises E_min: the best is not the historical minimum |
| Metropolis.DivStep | MCMC.py:41 | one more iteration adds exactly one multiple of the interval iff it divides i |
| Metropolis.ModAbs | MCMC.py:41 | the remainder by the interval is zero iff the remainder by its absolute value is |
| Metropolis.MCMC.constructor | MCMC.py:13-16 | it stores the configuration and the starting table, with the pair index set computed from that table |
| Metropolis.MCMC.MetropolisAlgo | MCMC.py:18-50 | the loop returns exactly Run of its inputs, and raises EmptyTable iff the start is empty; its invariant keeps best == current |

## Left out

- `readPDB` (MCMC.py:110-125): file I/O and fixed-column `float()` parsing. The starting table is an argument of the constructor.
- `angles_between`, `np.linalg.norm` and `np.exp` are uninterpreted. The model does not capture their floating-point values or the NaN that an unclamped `arccos` can produce.
- The model assumes only `exp(0) = 1` about `exp`, and only where a lemma needs it.
- All arithmetic is on exact reals; floating-point rounding is not modelled.
- PerturbateUndo: the round trip through the negated draws holds of exact reals only; in floating point `(x + a) + (-a)` need not be `x`.
- `np.random.normal` and `np.random.uniform` are replaced by the `Draw` inputs. The model does not capture the random streams or the fact that no uniform draw is consumed when the trial is lower.
- Conformations are sequences of 3-vectors: the table always has three columns.
- `pd.DataFrame.from_dict` (MCMC.py:50): the trajectory is a sequence of `Record` values.
- `log_method` (imports.py:9-17): timing and printing.
- The default `kT=0.6` of `metropolis_step` (MCMC.py:53): the driver always passes kT, so `MetropolisStep` takes kT as an ordinary argument.
- These files are outside the modelled core:
  - `experiment.py`: plotting and the summary across temperatures;
  - `config.py`: a named-tuple container, replaced by the `Config` datatype;
  - `__main__.py`: constants and a call.
- Metropolis.MCMC.MetropolisAlgo: the method's ensures ties the result to `Run`. The Run-level properties (trajectory shape, kT, best state) live in `RunProperties`, `Trajectory` and `RunOutcome`, not in the method's own ensures.
- Metropolis.MCMC.MetropolisAlgo: the method needs only that the stored pairs name rows of the table, which is the class invariant `Valid()`. That the pairs are `get_pair_idx` of the table is in the constructor's ensures.

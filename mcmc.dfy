/** MCMC.py: the Metropolis conformation optimiser with its floating-point
    numerics (norm, angle, exp) and its random draws taken as inputs. */
module Metropolis {
  import opened Imports

  /** A conformation table: one coordinate row per atom, row 0 the origin atom. */
  type Conformation = seq<Vec3>

  /** The fields of the configuration tuple that the core reads. The structure
      file path and the list of kT values belong to the caller. */
  datatype Config = Config(
    kr: real,              // spring constant for bond length
    r0: real,              // equilibrium bond length
    kTheta: real,          // spring constant for angle
    theta0: real,          // equilibrium angle (degrees)
    perturbScale: real,    // standard deviation of the Gaussian noise
    iterRounds: int,       // iteration rounds of the driver
    recordInterval: int)   // a record every this many iterations

  /** The library numerics the core calls, left uninterpreted:
      `np.linalg.norm`, `angles_between` and `np.exp`. */
  datatype Numerics = Numerics(norm: Vec3 -> real, angle: AngleFn, exp: real -> real)

  /** What the energy and the step read from the optimiser object:
      its configuration, the numerics and the stored angle-pair index set. */
  datatype Setup = Setup(config: Config, num: Numerics, pairs: seq<Pair>)

  /** The exceptions the core can raise. */
  datatype Error =
    | FloatDivisionByZero   // `-1/kT` with kT == 0
    | ModuloByZero          // `i % record_interval` with record_interval == 0
    | EmptyTable            // `np.apply_along_axis` on a table with no rows
    | NegativeScale         // `np.random.normal` with a negative scale

  datatype Result<T> = Ok(value: T) | Err(error: Error)

  // ---------------------------------------------------------------- energy

  function Sq(x: real): (r: real)
    ensures r >= 0.0
  {
    x * x
  }

  /** Σ over every row of the table, row 0 included, of (norm(row) − r0)². */
  function BondSum(norm: Vec3 -> real, r0: real, xs: Conformation): (s: real)
    ensures s >= 0.0
  {
    if xs == [] then 0.0 else Sq(norm(xs[0]) - r0) + BondSum(norm, r0, xs[1..])
  }

  /** Every index of every pair names a row of an n-row table. */
  predicate PairsWithin(pairs: seq<Pair>, n: nat) {
    forall p :: p in pairs ==> p.0 < n && p.1 < n
  }

  /** Σ over the index pairs (i, j) of (angle(row i, row j) − θ0)². */
  function AngleSum(angle: AngleFn, theta0: real, xs: Conformation, pairs: seq<Pair>): (s: real)
    requires PairsWithin(pairs, |xs|)
    ensures s >= 0.0
  {
    if pairs == [] then 0.0
    else Sq(angle(xs[pairs[0].0], xs[pairs[0].1]) - theta0) + AngleSum(angle, theta0, xs, pairs[1..])
  }

  /** `getEnergy`: ½·Kr·(bond sum) + ½·Kθ·(angle sum). numpy refuses an empty
      table, so a table has at least one row here. */
  function GetEnergy(s: Setup, xs: Conformation): (e: real)
    requires |xs| > 0
    requires PairsWithin(s.pairs, |xs|)
    ensures s.config.kr >= 0.0 && s.config.kTheta >= 0.0 ==> e >= 0.0
    ensures s.pairs == [] ==> e == 0.5 * s.config.kr * BondSum(s.num.norm, s.config.r0, xs)
  {
    0.5 * s.config.kr * BondSum(s.num.norm, s.config.r0, xs)
      + 0.5 * s.config.kTheta * AngleSum(s.num.angle, s.config.theta0, xs, s.pairs)
  }

  /** A one-atom table has no angle pairs, yet its origin row still carries a
      bond term. */
  lemma SingleAtomEnergy(c: Config, num: Numerics, xs: Conformation)
    requires |xs| == 1
    ensures GetEnergy(Setup(c, num, GetPairIdx(xs)), xs) == 0.5 * c.kr * Sq(num.norm(xs[0]) - c.r0)
  {
    assert GetPairIdx(xs) == [];
    assert BondSum(num.norm, c.r0, xs[1..]) == 0.0;
  }

  lemma {:induction false} BondSumAppend(norm: Vec3 -> real, r0: real, xs: Conformation, ys: Conformation)
    ensures BondSum(norm, r0, xs + ys) == BondSum(norm, r0, xs) + BondSum(norm, r0, ys)
  {
    if xs == [] {
      assert xs + ys == ys;
    } else {
      assert (xs + ys)[0] == xs[0] && (xs + ys)[1..] == xs[1..] + ys;
      BondSumAppend(norm, r0, xs[1..], ys);
    }
  }

  /** The energy depends on the table only through the norms of its rows and
      the angles of its pairs. */
  lemma {:induction false} BondSumCongruent(norm: Vec3 -> real, r0: real, xs: Conformation, ys: Conformation)
    requires |xs| == |ys|
    requires forall k :: 0 <= k < |xs| ==> norm(xs[k]) == norm(ys[k])
    ensures BondSum(norm, r0, xs) == BondSum(norm, r0, ys)
  {
    if xs != [] {
      assert norm(xs[0]) == norm(ys[0]);
      forall k | 0 <= k < |xs[1..]| ensures norm(xs[1..][k]) == norm(ys[1..][k]) {
        assert xs[1..][k] == xs[k + 1] && ys[1..][k] == ys[k + 1];
      }
      BondSumCongruent(norm, r0, xs[1..], ys[1..]);
    }
  }

  lemma {:induction false} AngleSumCongruent(angle: AngleFn, theta0: real, xs: Conformation, ys: Conformation, pairs: seq<Pair>)
    requires PairsWithin(pairs, |xs|) && |xs| == |ys|
    requires forall p :: p in pairs ==> angle(xs[p.0], xs[p.1]) == angle(ys[p.0], ys[p.1])
    ensures AngleSum(angle, theta0, xs, pairs) == AngleSum(angle, theta0, ys, pairs)
  {
    if pairs != [] {
      assert pairs[0] in pairs;
      AngleSumCongruent(angle, theta0, xs, ys, pairs[1..]);
    }
  }

  // ---------------------------------------------------------- perturbation

  /** One standard-normal draw per coordinate of rows 1 .. n-1. */
  predicate NoiseFits(xs: Conformation, z: seq<Vec3>) {
    |z| + 1 == |xs|
  }

  /** The noise table: a zero row on top of the scaled draws. */
  function NoiseTable(scale: real, z: seq<Vec3>): (t: seq<Vec3>)
    ensures |t| == |z| + 1 && t[0] == Zero
    ensures forall k :: 1 <= k < |t| ==> t[k] == z[k - 1].Scale(scale)
  {
    [Zero] + seq(|z|, k requires 0 <= k < |z| => z[k].Scale(scale))
  }

  /** `molecular_info + noise`: the table plus the noise table, row by row. */
  function AddNoise(xs: Conformation, scale: real, z: seq<Vec3>): (t: Conformation)
    requires NoiseFits(xs, z)
    ensures |t| == |xs|
    ensures t[0] == xs[0]
    ensures forall k :: 1 <= k < |t| ==> t[k] == xs[k].Plus(z[k - 1].Scale(scale))
  {
    var noise := NoiseTable(scale, z);
    seq(|xs|, k requires 0 <= k < |xs| => xs[k].Plus(noise[k]))
  }

  /** `perturbate`: `np.random.normal` refuses a negative scale before it
      draws anything; otherwise the trial is the table plus the noise. */
  function Perturbate(xs: Conformation, scale: real, z: seq<Vec3>): (r: Result<Conformation>)
    requires NoiseFits(xs, z)
    ensures r.Err? <==> scale < 0.0
    ensures r.Err? ==> r.error == NegativeScale
    ensures r.Ok? ==> |r.value| == |xs| && r.value[0] == xs[0]
    ensures r.Ok? ==> forall k :: 1 <= k < |xs| ==> r.value[k] == xs[k].Plus(z[k - 1].Scale(scale))
  {
    if scale < 0.0 then Err(NegativeScale) else Ok(AddNoise(xs, scale, z))
  }

  function Negated(z: seq<Vec3>): (n: seq<Vec3>)
    ensures |n| == |z|
    ensures forall k :: 0 <= k < |z| ==> n[k] == z[k].Scale(-1.0)
  {
    seq(|z|, k requires 0 <= k < |z| => z[k].Scale(-1.0))
  }

  /** With a zero scale or all-zero draws the trial equals the input. */
  lemma PerturbateZero(xs: Conformation, scale: real, z: seq<Vec3>)
    requires NoiseFits(xs, z)
    requires scale == 0.0 || forall k :: 0 <= k < |z| ==> z[k] == Zero
    ensures AddNoise(xs, scale, z) == xs
  {
    var t := AddNoise(xs, scale, z);
    forall k | 0 <= k < |xs| ensures t[k] == xs[k] {
      if k > 0 {
        assert z[k - 1].Scale(scale) == Zero;
      }
    }
  }

  /** Perturbing by the negated draws undoes a perturbation. This holds of
      exact reals; in floating point `(x + a) + (-a)` need not be `x`. */
  lemma PerturbateUndo(xs: Conformation, scale: real, z: seq<Vec3>)
    requires NoiseFits(xs, z)
    ensures AddNoise(AddNoise(xs, scale, z), scale, Negated(z)) == xs
  {
    var t := AddNoise(xs, scale, z);
    var u := AddNoise(t, scale, Negated(z));
    forall k | 0 <= k < |xs| ensures u[k] == xs[k] {
      if k > 0 {
        assert u[k] == t[k].Plus(z[k - 1].Scale(-1.0).Scale(scale));
      }
    }
  }

  // ------------------------------------------------------------------ step

  /** Python's `~` on an integer (a bool is the integer 0 or 1). */
  function BitNot(b: int): (r: int)
    ensures Truthy(r) <==> b != -1
    ensures r < 0 <==> b >= 0
  {
    -b - 1
  }

  /** The flag `metropolis_step` returns: `Accept = True` on acceptance,
      `~Accept` on rejection, which is the integer -2. */
  const ACCEPT: int := 1
  const REJECT: int := BitNot(ACCEPT)

  /** Python truthiness of an integer flag. */
  predicate Truthy(flag: int) {
    flag != 0
  }

  /** The random inputs of one iteration: standard-normal rows for the
      perturbation and the uniform draw of the acceptance test. */
  datatype Draw = Draw(z: seq<Vec3>, u: real)

  datatype StepResult = StepResult(energy: real, conf: Conformation, flag: int)

  /** `np.exp(-1/kT * (E_trial - E_i))`. */
  function AcceptProb(exp: real -> real, kT: real, eTrial: real, ei: real): (p: real)
    requires kT != 0.0
    ensures p == exp((ei - eTrial) / kT)
    ensures eTrial == ei ==> p == exp(0.0)
  {
    assert (-1.0 / kT) * (eTrial - ei) == (ei - eTrial) / kT;
    exp((-1.0 / kT) * (eTrial - ei))
  }

  /** `metropolis_step`: a negative noise scale raises in the perturbation;
      otherwise accept a lower-energy trial, else accept it when the uniform
      draw is at most the Boltzmann factor, else return the input state. */
  function MetropolisStep(s: Setup, ei: real, xi: Conformation, kT: real, d: Draw): (r: Result<StepResult>)
    requires NoiseFits(xi, d.z) && PairsWithin(s.pairs, |xi|)
    ensures r.Err? ==> r.error == NegativeScale || r.error == FloatDivisionByZero
    ensures r.Ok? ==> Truthy(r.value.flag)
    ensures r.Ok? ==> |r.value.conf| == |xi| && r.value.conf[0] == xi[0]
  {
    match Perturbate(xi, s.config.perturbScale, d.z)
    case Err(e) => Err(e)
    case Ok(trial) =>
      var eTrial := GetEnergy(s, trial);
      if eTrial < ei then Ok(StepResult(eTrial, trial, ACCEPT))
      else if kT == 0.0 then Err(FloatDivisionByZero)
      else if d.u <= AcceptProb(s.num.exp, kT, eTrial, ei) then Ok(StepResult(eTrial, trial, ACCEPT))
      else Ok(StepResult(ei, xi, REJECT))
  }

  /** The acceptance rule: a negative scale raises before anything else; then
      the step raises exactly when the trial is not lower and kT is zero;
      otherwise it accepts exactly when the trial is lower or u is at most the
      Boltzmann factor, returning the trial, and else returns its input state
      with the flag ~True. A consistent input (energy of the table) gives a
      consistent output. */
  lemma StepRule(s: Setup, ei: real, xi: Conformation, kT: real, d: Draw)
    requires NoiseFits(xi, d.z) && PairsWithin(s.pairs, |xi|)
    ensures s.config.perturbScale < 0.0 ==> MetropolisStep(s, ei, xi, kT, d) == Err(NegativeScale)
    ensures var r := MetropolisStep(s, ei, xi, kT, d);
      var trial := AddNoise(xi, s.config.perturbScale, d.z);
      var eTrial := GetEnergy(s, trial);
      s.config.perturbScale >= 0.0 ==>
        && (r.Err? <==> !(eTrial < ei) && kT == 0.0)
        && (r.Err? ==> r.error == FloatDivisionByZero)
        && (r.Ok? ==> (r.value.flag == ACCEPT <==> eTrial < ei || d.u <= AcceptProb(s.num.exp, kT, eTrial, ei)))
        && (r.Ok? && r.value.flag == ACCEPT ==> r.value.energy == eTrial && r.value.conf == trial)
        && (r.Ok? && r.value.flag != ACCEPT ==> r.value == StepResult(ei, xi, REJECT))
    ensures var r := MetropolisStep(s, ei, xi, kT, d);
      r.Ok? && ei == GetEnergy(s, xi) ==> r.value.energy == GetEnergy(s, r.value.conf)
  {
  }

  /** With a non-negative scale, a trial of strictly lower energy is accepted
      whatever the uniform draw and whatever kT. */
  lemma LowerTrialAccepted(s: Setup, ei: real, xi: Conformation, kT: real, kT': real, d: Draw, u': real)
    requires NoiseFits(xi, d.z) && PairsWithin(s.pairs, |xi|)
    requires s.config.perturbScale >= 0.0
    requires GetEnergy(s, AddNoise(xi, s.config.perturbScale, d.z)) < ei
    ensures var trial := AddNoise(xi, s.config.perturbScale, d.z);
      MetropolisStep(s, ei, xi, kT, d) == MetropolisStep(s, ei, xi, kT', Draw(d.z, u'))
        == Ok(StepResult(GetEnergy(s, trial), trial, ACCEPT))
  {
  }

  /** With a non-negative scale, a trial of equal energy has acceptance
      probability exp(0) = 1 and is accepted by every draw u in [0, 1). */
  lemma EqualEnergyAccepted(s: Setup, ei: real, xi: Conformation, kT: real, d: Draw)
    requires NoiseFits(xi, d.z) && PairsWithin(s.pairs, |xi|)
    requires s.config.perturbScale >= 0.0
    requires s.num.exp(0.0) == 1.0 && kT != 0.0 && d.u < 1.0
    requires GetEnergy(s, AddNoise(xi, s.config.perturbScale, d.z)) == ei
    ensures MetropolisStep(s, ei, xi, kT, d) == Ok(StepResult(ei, AddNoise(xi, s.config.perturbScale, d.z), ACCEPT))
  {
    assert (-1.0 / kT) * (ei - ei) == 0.0;
  }

  /** The rejection flag is -2, which Python treats as true. */
  lemma RejectFlagIsTruthy()
    ensures REJECT == -2 && Truthy(REJECT) && REJECT != ACCEPT
  {
  }

  // ---------------------------------------------------------------- driver

  /** One trajectory row: {'round', 'E_min', 'kT'}. */
  datatype Record = Record(round: int, eMin: real, kT: real)

  /** The local variables of `metropolis_algo`. */
  datatype LoopState = LoopState(ei: real, xi: Conformation, eMin: real, xMin: Conformation, result: seq<Record>)

  /** What `metropolis_algo` returns: E_min, X_min, the trajectory, kT. */
  datatype RunResult = RunResult(eMin: real, xMin: Conformation, records: seq<Record>, kT: real)

  function Abs(n: int): nat {
    if n < 0 then -n else n
  }

  /** The number of loop iterations: `range(1, iter_rounds + 1)` is empty
      for iter_rounds <= 0. */
  function Rounds(c: Config): nat {
    if c.iterRounds < 0 then 0 else c.iterRounds
  }

  /** Every iteration gets noise of the table's shape. */
  predicate DrawsFit(start: Conformation, draws: seq<Draw>) {
    forall k :: 0 <= k < |draws| ==> NoiseFits(start, draws[k].z)
  }

  /** The state before the loop: current and best are the start, and the
      trajectory holds one record that says round 1. */
  function Init(s: Setup, start: Conformation, kT: real): (st: LoopState)
    requires |start| > 0 && PairsWithin(s.pairs, |start|)
    ensures st.xi == st.xMin == start
    ensures st.ei == st.eMin == GetEnergy(s, start)
    ensures st.result == [Record(1, GetEnergy(s, start), kT)]
  {
    var e := GetEnergy(s, start);
    LoopState(e, start, e, start, [Record(1, e, kT)])
  }

  /** Iteration i of the loop: take a step, copy it into the best pair when
      its flag is truthy, then append a record when i is a multiple of the
      record interval. */
  function Advance(s: Setup, st: LoopState, kT: real, d: Draw, i: int): (r: Result<LoopState>)
    requires NoiseFits(st.xi, d.z) && PairsWithin(s.pairs, |st.xi|)
    ensures r.Ok? ==> |r.value.xi| == |st.xi| && r.value.xi[0] == st.xi[0]
    ensures r.Err? ==> r.error != EmptyTable
  {
    match MetropolisStep(s, st.ei, st.xi, kT, d)
    case Err(e) => Err(e)
    case Ok(step) =>
      var eMin := if Truthy(step.flag) then step.energy else st.eMin;
      var xMin := if Truthy(step.flag) then step.conf else st.xMin;
      if s.config.recordInterval == 0 then Err(ModuloByZero)
      else
        var result := if i % s.config.recordInterval == 0 then st.result + [Record(i, eMin, kT)] else st.result;
        Ok(LoopState(step.energy, step.conf, eMin, xMin, result))
  }

  /** The loop state after the first i iterations, or the exception that
      ended the run. */
  function Iterate(s: Setup, start: Conformation, kT: real, draws: seq<Draw>, i: nat): (r: Result<LoopState>)
    requires |start| > 0 && PairsWithin(s.pairs, |start|) && DrawsFit(start, draws)
    requires i <= |draws|
    ensures r.Ok? ==> |r.value.xi| == |start| && r.value.xi[0] == start[0]
    ensures r.Err? ==> r.error != EmptyTable
  {
    if i == 0 then Ok(Init(s, start, kT))
    else
      match Iterate(s, start, kT, draws, i - 1)
      case Err(e) => Err(e)
      case Ok(st) => Advance(s, st, kT, draws[i - 1], i)
  }

  /** `metropolis_algo(kT)` as a value: the start must have a row (numpy's
      energy sum raises otherwise), then the loop runs every iteration. */
  function Run(s: Setup, start: Conformation, kT: real, draws: seq<Draw>): (r: Result<RunResult>)
    requires PairsWithin(s.pairs, |start|)
    requires |start| > 0 ==> DrawsFit(start, draws) && Rounds(s.config) <= |draws|
    ensures r == Err(EmptyTable) <==> |start| == 0
    ensures r.Ok? ==> r.value.kT == kT && |r.value.xMin| == |start| && r.value.xMin[0] == start[0]
  {
    if |start| == 0 then Err(EmptyTable)
    else
      match Iterate(s, start, kT, draws, Rounds(s.config))
      case Err(e) => Err(e)
      case Ok(st) => Ok(RunResult(st.eMin, st.xMin, st.result, kT))
  }

  /** Successful runs have successful prefixes. */
  lemma {:induction false} IterateOkPrefix(s: Setup, start: Conformation, kT: real, draws: seq<Draw>, i: nat, k: nat)
    requires |start| > 0 && PairsWithin(s.pairs, |start|) && DrawsFit(start, draws)
    requires k <= i <= |draws|
    requires Iterate(s, start, kT, draws, i).Ok?
    ensures Iterate(s, start, kT, draws, k).Ok?
  {
    if k < i {
      IterateOkPrefix(s, start, kT, draws, i - 1, k);
    }
  }

  /** The invariant of the loop: the best pair is the current pair, the
      current energy is the energy of the current table, and the origin row
      is the starting one. Rejection hands back the current pair with a
      truthy flag, so line 37's copy runs on every iteration. */
  lemma {:induction false} IterateInvariant(s: Setup, start: Conformation, kT: real, draws: seq<Draw>, i: nat)
    requires |start| > 0 && PairsWithin(s.pairs, |start|) && DrawsFit(start, draws)
    requires i <= |draws|
    requires Iterate(s, start, kT, draws, i).Ok?
    ensures Iterate(s, start, kT, draws, i).value.eMin == Iterate(s, start, kT, draws, i).value.ei
    ensures Iterate(s, start, kT, draws, i).value.xMin == Iterate(s, start, kT, draws, i).value.xi
    ensures Iterate(s, start, kT, draws, i).value.ei == GetEnergy(s, Iterate(s, start, kT, draws, i).value.xi)
  {
    if i > 0 {
      IterateInvariant(s, start, kT, draws, i - 1);
      var st := Iterate(s, start, kT, draws, i - 1).value;
      StepRule(s, st.ei, st.xi, kT, draws[i - 1]);
    }
  }

  /** An exception ends the run: later iterations return it unchanged. */
  lemma {:induction false} IterateErrPersists(s: Setup, start: Conformation, kT: real, draws: seq<Draw>, k: nat, i: nat)
    requires |start| > 0 && PairsWithin(s.pairs, |start|) && DrawsFit(start, draws)
    requires k <= i <= |draws|
    requires Iterate(s, start, kT, draws, k).Err?
    ensures Iterate(s, start, kT, draws, i) == Iterate(s, start, kT, draws, k)
  {
    if k < i {
      IterateErrPersists(s, start, kT, draws, k, i - 1);
    }
  }

  /** What one iteration does to the trajectory: it appends the record
      (i, new best energy, kT) exactly when i is a multiple of the interval. */
  lemma AdvanceRecords(s: Setup, st: LoopState, kT: real, d: Draw, i: int)
    requires NoiseFits(st.xi, d.z) && PairsWithin(s.pairs, |st.xi|)
    requires Advance(s, st, kT, d, i).Ok?
    ensures s.config.recordInterval != 0
    ensures i % s.config.recordInterval == 0 ==>
      Advance(s, st, kT, d, i).value.result == st.result + [Record(i, Advance(s, st, kT, d, i).value.eMin, kT)]
    ensures i % s.config.recordInterval != 0 ==> Advance(s, st, kT, d, i).value.result == st.result
  {
  }

  /** The shape of the trajectory after i iterations, with d = |record_interval|:
      the seeded record (round 1, the initial energy), then exactly one record
      per multiple of d up to i, in increasing order, all carrying kT. */
  lemma {:induction false} Trajectory(s: Setup, start: Conformation, kT: real, draws: seq<Draw>, i: nat)
    requires |start| > 0 && PairsWithin(s.pairs, |start|) && DrawsFit(start, draws)
    requires i <= |draws| && s.config.recordInterval != 0
    requires Iterate(s, start, kT, draws, i).Ok?
    ensures |Iterate(s, start, kT, draws, i).value.result| == 1 + i / Abs(s.config.recordInterval)
    ensures Iterate(s, start, kT, draws, i).value.result[0] == Record(1, GetEnergy(s, start), kT)
    ensures forall j :: 0 <= j < |Iterate(s, start, kT, draws, i).value.result| ==>
      Iterate(s, start, kT, draws, i).value.result[j].kT == kT
    ensures forall j :: 1 <= j < |Iterate(s, start, kT, draws, i).value.result| ==>
      Iterate(s, start, kT, draws, i).value.result[j].round == j * Abs(s.config.recordInterval) <= i
  {
    if i > 0 {
      var d := Abs(s.config.recordInterval);
      var prev := Iterate(s, start, kT, draws, i - 1).value;
      Trajectory(s, start, kT, draws, i - 1);
      DivStep(i, s.config.recordInterval);
      AdvanceRecords(s, prev, kT, draws[i - 1], i);
      var rs := Iterate(s, start, kT, draws, i).value.result;
      if i % s.config.recordInterval == 0 {
        assert rs == prev.result + [Record(i, Iterate(s, start, kT, draws, i).value.eMin, kT)];
        assert |prev.result| == i / d;
        forall j | 1 <= j < |rs| ensures rs[j].round == j * d <= i {
          if j < |prev.result| {
            assert rs[j] == prev.result[j];
          } else {
            assert rs[j].round == i == |prev.result| * d;
          }
        }
      } else {
        assert rs == prev.result;
      }
    } else {
      assert Iterate(s, start, kT, draws, 0).value.result == [Record(1, GetEnergy(s, start), kT)];
      assert 0 / Abs(s.config.recordInterval) == 0;
    }
  }

  /** Each record after the first holds the best energy after as many
      iterations as its round says; the first holds the initial energy
      although it says round 1. */
  lemma {:induction false} TrajectoryEnergies(s: Setup, start: Conformation, kT: real, draws: seq<Draw>, i: nat)
    requires |start| > 0 && PairsWithin(s.pairs, |start|) && DrawsFit(start, draws)
    requires i <= |draws| && s.config.recordInterval != 0
    requires Iterate(s, start, kT, draws, i).Ok?
    ensures forall j :: 1 <= j < |Iterate(s, start, kT, draws, i).value.result| ==>
      var rec := Iterate(s, start, kT, draws, i).value.result[j];
      && 1 <= rec.round <= i
      && Iterate(s, start, kT, draws, rec.round).Ok?
      && rec.eMin == Iterate(s, start, kT, draws, rec.round).value.eMin
  {
    if i > 0 {
      var prev := Iterate(s, start, kT, draws, i - 1).value;
      TrajectoryEnergies(s, start, kT, draws, i - 1);
      AdvanceRecords(s, prev, kT, draws[i - 1], i);
    }
  }

  /** What a returned run holds: the best table keeps the start's shape and
      origin row and has the best energy; the trajectory is the seeded
      record, then one record per multiple of |record_interval| in
      increasing order, all with the kT passed in, as is the last component. */
  lemma RunProperties(s: Setup, start: Conformation, kT: real, draws: seq<Draw>)
    requires PairsWithin(s.pairs, |start|)
    requires |start| > 0 ==> DrawsFit(start, draws) && Rounds(s.config) <= |draws|
    requires Run(s, start, kT, draws).Ok?
    ensures |start| > 0
    ensures var r := Run(s, start, kT, draws).value;
      && r.kT == kT
      && |r.xMin| == |start| && r.xMin[0] == start[0]
      && r.eMin == GetEnergy(s, r.xMin)
      && r.records != [] && r.records[0] == Record(1, GetEnergy(s, start), kT)
      && (forall j :: 0 <= j < |r.records| ==> r.records[j].kT == kT)
    ensures var r := Run(s, start, kT, draws).value;
      s.config.recordInterval != 0 ==>
        && |r.records| == 1 + Rounds(s.config) / Abs(s.config.recordInterval)
        && forall j :: 1 <= j < |r.records| ==> r.records[j].round == j * Abs(s.config.recordInterval)
  {
    var n := Rounds(s.config);
    var it := Iterate(s, start, kT, draws, n);
    assert it.Ok? && Run(s, start, kT, draws) == Ok(RunResult(it.value.eMin, it.value.xMin, it.value.result, kT));
    IterateInvariant(s, start, kT, draws, n);
    if s.config.recordInterval != 0 {
      Trajectory(s, start, kT, draws, n);
    } else {
      assert n == 0;
      assert it.value.result == [Record(1, GetEnergy(s, start), kT)];
    }
  }

  /** With record_interval == 0 every run of at least one iteration raises. */
  lemma {:induction false} ZeroIntervalFails(s: Setup, start: Conformation, kT: real, draws: seq<Draw>, i: nat)
    requires |start| > 0 && PairsWithin(s.pairs, |start|) && DrawsFit(start, draws)
    requires 1 <= i <= |draws| && s.config.recordInterval == 0
    ensures Iterate(s, start, kT, draws, i).Err?
  {
    if i > 1 {
      ZeroIntervalFails(s, start, kT, draws, i - 1);
    }
  }

  /** With a non-negative scale, kT != 0 and record_interval != 0 nothing
      raises. */
  lemma {:induction false} NonZeroSucceeds(s: Setup, start: Conformation, kT: real, draws: seq<Draw>, i: nat)
    requires |start| > 0 && PairsWithin(s.pairs, |start|) && DrawsFit(start, draws)
    requires i <= |draws| && kT != 0.0 && s.config.recordInterval != 0 && s.config.perturbScale >= 0.0
    ensures Iterate(s, start, kT, draws, i).Ok?
  {
    if i > 0 {
      NonZeroSucceeds(s, start, kT, draws, i - 1);
    }
  }

  /** A negative noise scale raises at the first iteration's perturbation. */
  lemma {:induction false} NegativeScaleFails(s: Setup, start: Conformation, kT: real, draws: seq<Draw>, i: nat)
    requires |start| > 0 && PairsWithin(s.pairs, |start|) && DrawsFit(start, draws)
    requires 1 <= i <= |draws| && s.config.perturbScale < 0.0
    ensures Iterate(s, start, kT, draws, i) == Err(NegativeScale)
  {
    assert Iterate(s, start, kT, draws, 1) == Err(NegativeScale);
    IterateErrPersists(s, start, kT, draws, 1, i);
  }

  /** How a run ends: an empty table raises first; a negative noise scale
      raises once an iteration runs; a zero record interval
      raises once an iteration runs; with kT and the interval non-zero the run
      returns when the scale is non-negative; and with a non-negative scale a
      zero kT raises as soon as the first trial is not lower. */
  lemma RunOutcome(s: Setup, start: Conformation, kT: real, draws: seq<Draw>)
    requires PairsWithin(s.pairs, |start|)
    requires |start| > 0 ==> DrawsFit(start, draws) && Rounds(s.config) <= |draws|
    ensures |start| == 0 ==> Run(s, start, kT, draws) == Err(EmptyTable)
    ensures |start| > 0 && s.config.recordInterval == 0 && Rounds(s.config) >= 1 ==>
      Run(s, start, kT, draws).Err? && Run(s, start, kT, draws).error != EmptyTable
    ensures |start| > 0 && s.config.perturbScale < 0.0 && Rounds(s.config) >= 1 ==>
      Run(s, start, kT, draws) == Err(NegativeScale)
    ensures |start| > 0 && kT != 0.0 && s.config.recordInterval != 0 && s.config.perturbScale >= 0.0 ==>
      Run(s, start, kT, draws).Ok?
    ensures (&& |start| > 0 && kT == 0.0 && Rounds(s.config) >= 1 && s.config.perturbScale >= 0.0
             && !(GetEnergy(s, AddNoise(start, s.config.perturbScale, draws[0].z)) < GetEnergy(s, start)))
      ==> Run(s, start, kT, draws) == Err(FloatDivisionByZero)
  {
    if |start| > 0 {
      var n := Rounds(s.config);
      if s.config.recordInterval == 0 && n >= 1 {
        ZeroIntervalFails(s, start, kT, draws, n);
      }
      if s.config.perturbScale < 0.0 && n >= 1 {
        NegativeScaleFails(s, start, kT, draws, n);
      }
      if kT != 0.0 && s.config.recordInterval != 0 && s.config.perturbScale >= 0.0 {
        NonZeroSucceeds(s, start, kT, draws, n);
      }
      if kT == 0.0 && n >= 1 && s.config.perturbScale >= 0.0 && !(GetEnergy(s, AddNoise(start, s.config.perturbScale, draws[0].z)) < GetEnergy(s, start)) {
        assert Iterate(s, start, kT, draws, 1) == Err(FloatDivisionByZero);
        IterateErrPersists(s, start, kT, draws, 1, n);
      }
    }
  }

  /** With a zero perturbation scale every trial is the current table, has the
      current energy and is accepted (exp(0) = 1 >= u), so the run never
      leaves the start and every record holds the initial energy. */
  lemma {:induction false} ZeroNoiseStaysAtStart(s: Setup, start: Conformation, kT: real, draws: seq<Draw>, i: nat)
    requires |start| > 0 && PairsWithin(s.pairs, |start|) && DrawsFit(start, draws)
    requires i <= |draws|
    requires s.config.perturbScale == 0.0 && kT != 0.0 && s.config.recordInterval != 0
    requires s.num.exp(0.0) == 1.0
    requires forall k :: 0 <= k < |draws| ==> draws[k].u < 1.0
    ensures Iterate(s, start, kT, draws, i).Ok?
    ensures Iterate(s, start, kT, draws, i).value.xi == Iterate(s, start, kT, draws, i).value.xMin == start
    ensures Iterate(s, start, kT, draws, i).value.ei == Iterate(s, start, kT, draws, i).value.eMin == GetEnergy(s, start)
    ensures forall j :: 0 <= j < |Iterate(s, start, kT, draws, i).value.result| ==>
      Iterate(s, start, kT, draws, i).value.result[j].eMin == GetEnergy(s, start)
  {
    if i > 0 {
      ZeroNoiseStaysAtStart(s, start, kT, draws, i - 1);
      var e := GetEnergy(s, start);
      PerturbateZero(start, 0.0, draws[i - 1].z);
      EqualEnergyAccepted(s, e, start, kT, draws[i - 1]);
      var prev := Iterate(s, start, kT, draws, i - 1).value;
      var cur := Iterate(s, start, kT, draws, i);
      assert cur == Advance(s, prev, kT, draws[i - 1], i);
      assert MetropolisStep(s, e, start, kT, draws[i - 1]) == Ok(StepResult(e, start, ACCEPT));
      assert cur.value.result == prev.result || cur.value.result == prev.result + [Record(i, e, kT)];
    }
  }

  /** The scenario of a four-atom table with Kr = 367, r0 = 1.08, Kθ = 35,
      θ0 = 109.5, kT = 0.6, zero noise, 10 iterations and a record every 5:
      the run returns the start and its energy, with records at rounds 1, 5
      and 10 that all hold that energy. */
  lemma EndToEndZeroNoise(num: Numerics, start: Conformation, draws: seq<Draw>)
    requires |start| == 4 && num.exp(0.0) == 1.0
    requires DrawsFit(start, draws) && 10 <= |draws|
    requires forall k :: 0 <= k < |draws| ==> draws[k].u < 1.0
    ensures Run(Setup(Config(367.0, 1.08, 35.0, 109.5, 0.0, 10, 5), num, GetPairIdx(start)), start, 0.6, draws)
      == Ok(RunResult(
           GetEnergy(Setup(Config(367.0, 1.08, 35.0, 109.5, 0.0, 10, 5), num, GetPairIdx(start)), start),
           start,
           [Record(1, GetEnergy(Setup(Config(367.0, 1.08, 35.0, 109.5, 0.0, 10, 5), num, GetPairIdx(start)), start), 0.6),
            Record(5, GetEnergy(Setup(Config(367.0, 1.08, 35.0, 109.5, 0.0, 10, 5), num, GetPairIdx(start)), start), 0.6),
            Record(10, GetEnergy(Setup(Config(367.0, 1.08, 35.0, 109.5, 0.0, 10, 5), num, GetPairIdx(start)), start), 0.6)],
           0.6))
  {
    var s := Setup(Config(367.0, 1.08, 35.0, 109.5, 0.0, 10, 5), num, GetPairIdx(start));
    var e := GetEnergy(s, start);
    ZeroNoiseStaysAtStart(s, start, 0.6, draws, 10);
    Trajectory(s, start, 0.6, draws, 10);
    var rs := Iterate(s, start, 0.6, draws, 10).value.result;
    assert |rs| == 3;
    assert rs == [Record(1, e, 0.6), Record(5, e, 0.6), Record(10, e, 0.6)];
  }

  /** The best pair follows every accepted trial, not the historical minimum:
      when iteration i (with a non-negative scale) accepts a trial of higher
      energy by the Boltzmann test, the best energy after i iterations is that
      higher energy. */
  lemma UphillMoveRaisesBest(s: Setup, start: Conformation, kT: real, draws: seq<Draw>, i: nat)
    requires |start| > 0 && PairsWithin(s.pairs, |start|) && DrawsFit(start, draws)
    requires 1 <= i <= |draws| && s.config.recordInterval != 0
    requires Iterate(s, start, kT, draws, i - 1).Ok?
    requires var st := Iterate(s, start, kT, draws, i - 1).value;
      && kT != 0.0 && s.config.perturbScale >= 0.0
      && var eTrial := GetEnergy(s, AddNoise(st.xi, s.config.perturbScale, draws[i - 1].z));
      && st.ei < eTrial
      && draws[i - 1].u <= AcceptProb(s.num.exp, kT, eTrial, st.ei)
    ensures Iterate(s, start, kT, draws, i).Ok?
    ensures var st := Iterate(s, start, kT, draws, i - 1).value;
      Iterate(s, start, kT, draws, i).value.eMin
        == GetEnergy(s, AddNoise(st.xi, s.config.perturbScale, draws[i - 1].z))
        > st.eMin
  {
    IterateInvariant(s, start, kT, draws, i - 1);
    var st := Iterate(s, start, kT, draws, i - 1).value;
    assert Iterate(s, start, kT, draws, i) == Advance(s, st, kT, draws[i - 1], i);
  }

  /** Counting multiples: moving from i - 1 to i adds one multiple of d
      exactly when d divides i, and then i is that many times d. */
  lemma DivStep(i: int, r: int)
    requires i >= 1 && r != 0
    ensures i % r == 0 ==> i / Abs(r) == (i - 1) / Abs(r) + 1 && (i / Abs(r)) * Abs(r) == i
    ensures i % r != 0 ==> i / Abs(r) == (i - 1) / Abs(r)
  {
    var d := Abs(r);
    var q, m := (i - 1) / d, (i - 1) % d;
    assert i - 1 == q * d + m && 0 <= m < d;
    assert i == q * d + (m + 1);
    ModAbs(i, r);
    if m + 1 == d {
      assert i == (q + 1) * d;
      DivExact(i, q + 1, d);
    } else {
      DivUnique(i, q, m + 1, d);
    }
  }

  lemma ModAbs(i: int, r: int)
    requires r != 0
    ensures i % r == i % Abs(r)
  {
    var d := Abs(r);
    if r < 0 {
      var q, m := i / r, i % r;
      assert i == q * r + m && 0 <= m < d;
      assert i == (-q) * d + m;
      DivUnique(i, -q, m, d);
    }
  }

  lemma DivUnique(i: int, q: int, m: int, d: int)
    requires d > 0 && 0 <= m < d && i == q * d + m
    ensures i / d == q && i % d == m
  {
    var q', m' := i / d, i % d;
    assert i == q' * d + m' && 0 <= m' < d;
    assert (q - q') * d == m' - m;
    if q > q' {
      MulAtLeast(q - q', d);
    } else if q < q' {
      MulAtLeast(q' - q, d);
    }
  }

  lemma MulAtLeast(a: int, d: int)
    requires a >= 1 && d > 0
    ensures a * d >= d
  {
  }

  lemma DivExact(i: int, q: int, d: int)
    requires d > 0 && i == q * d
    ensures i / d == q && i % d == 0
  {
    DivUnique(i, q, 0, d);
  }

  // ------------------------------------------------------------ the object

  /** The optimiser object: its configuration, the numerics, the starting
      conformation and the angle-pair index set, all set once at construction. */
  class MCMC {
    const config: Config
    const num: Numerics
    const startingConformation: Conformation
    const anglePairIdx: seq<Pair>

    /** Every angle pair names two rows of the starting conformation. */
    predicate Valid() {
      PairsWithin(anglePairIdx, |startingConformation|)
    }

    /** `__init__`; the structure file is read by the caller. */
    constructor (config: Config, num: Numerics, startingConformation: Conformation)
      ensures this.config == config && this.num == num
      ensures this.startingConformation == startingConformation
      ensures anglePairIdx == GetPairIdx(startingConformation)
      ensures Valid()
    {
      this.config := config;
      this.num := num;
      this.startingConformation := startingConformation;
      this.anglePairIdx := GetPairIdx(startingConformation);
    }

    function Params(): Setup {
      Setup(config, num, anglePairIdx)
    }

    /** `metropolis_algo(kT)`, with draws[i - 1] the random input of
        iteration i. */
    method MetropolisAlgo(kT: real, draws: seq<Draw>) returns (res: Result<RunResult>)
      requires Valid()
      requires |startingConformation| > 0 ==> DrawsFit(startingConformation, draws) && Rounds(config) <= |draws|
      ensures res == Run(Params(), startingConformation, kT, draws)
      ensures res == Err(EmptyTable) <==> |startingConformation| == 0
    {
      var s := Params();
      var start := startingConformation;
      if |start| == 0 {
        return Err(EmptyTable);
      }
      var eI := GetEnergy(s, start);
      var eMin := GetEnergy(s, start);
      var xI := start;
      var xMin := start;
      var result := [Record(1, eMin, kT)];
      var i := 1;
      while i <= config.iterRounds
        invariant 1 <= i <= Rounds(config) + 1
        invariant Iterate(s, start, kT, draws, i - 1) == Ok(LoopState(eI, xI, eMin, xMin, result))
        invariant eMin == eI && xMin == xI
      {
        ghost var before := LoopState(eI, xI, eMin, xMin, result);
        var step := MetropolisStep(s, eI, xI, kT, draws[i - 1]);
        assert Iterate(s, start, kT, draws, i) == Advance(s, before, kT, draws[i - 1], i);
        if step.Err? {
          assert Iterate(s, start, kT, draws, i) == Err(step.error);
          IterateErrPersists(s, start, kT, draws, i, Rounds(config));
          return Err(step.error);
        }
        eI, xI := step.value.energy, step.value.conf;
        if Truthy(step.value.flag) {
          eMin, xMin := eI, xI;
        }
        if config.recordInterval == 0 {
          assert Iterate(s, start, kT, draws, i) == Err(ModuloByZero);
          IterateErrPersists(s, start, kT, draws, i, Rounds(config));
          return Err(ModuloByZero);
        }
        if i % config.recordInterval == 0 {
          result := result + [Record(i, eMin, kT)];
        }
        i := i + 1;
      }
      assert Iterate(s, start, kT, draws, Rounds(config)) == Ok(LoopState(eI, xI, eMin, xMin, result));
      res := Ok(RunResult(eMin, xMin, result, kT));
    }
  }
}

/** The bookkeeping of the limited-memory quasi-Newton nonlinear solver:
    the defaults it installs when a solver object becomes a QN solver, how
    set-up resolves the "default" choices, the three setters, and the
    counters of the solve loop (iteration number, restart counter, line
    search failures, converged reason). The numerics (matrix updates, line
    search, convergence test, Powell's angle test) are oracle inputs: each
    iteration is described by a `Trial` saying what they reported. */
module QuasiNewton {

  datatype QNType = LBFGS | Broyden | BadBroyden
  datatype ScaleType = ScaleDefault | ScaleNone | ScaleScalar | ScaleDiagonal | ScaleJacobian
  datatype RestartType = RestartDefault | RestartNone | RestartPowell | RestartPeriodic
  datatype PCSide = Left | Right | Symmetric
  datatype FunctionType = FunctionDefault | Unpreconditioned | Preconditioned

  /** Why the solve stopped. `Tested(code)` is whatever non-zero reason the
      convergence test reported; the others are set by the solver itself. */
  datatype Reason = Iterating | Tested(code: int) | DivergedFunctionCount | DivergedLineSearch
                  | DivergedInner | DivergedMaxIt

  /** Scale type after set-up: DEFAULT becomes NONE for Bad Broyden and
      SCALAR otherwise; Broyden and Bad Broyden then force NONE. */
  function ResolvedScale(t: QNType, s: ScaleType): ScaleType
  {
    var s' := if s == ScaleDefault then (if t == BadBroyden then ScaleNone else ScaleScalar) else s;
    if t == Broyden || t == BadBroyden then ScaleNone else s'
  }

  /** Restart type after set-up: DEFAULT becomes POWELL for L-BFGS and
      PERIODIC otherwise; an explicit choice is kept. */
  function ResolvedRestart(t: QNType, r: RestartType): RestartType
  {
    if r == RestartDefault then (if t == LBFGS then RestartPowell else RestartPeriodic) else r
  }

  /** Function type after set-up: with left preconditioning DEFAULT becomes
      UNPRECONDITIONED. */
  function ResolvedFunctionType(side: PCSide, f: FunctionType): FunctionType
  {
    if side == Left && f == FunctionDefault then Unpreconditioned else f
  }

  /** After set-up no choice is left at DEFAULT (the function type only
      when preconditioning from the left), and the Broyden variants always
      run unscaled. */
  lemma ResolvedNeverDefault(t: QNType, s: ScaleType, r: RestartType, side: PCSide, f: FunctionType)
    ensures ResolvedScale(t, s) != ScaleDefault && ResolvedRestart(t, r) != RestartDefault
    ensures side == Left ==> ResolvedFunctionType(side, f) != FunctionDefault
    ensures t != LBFGS ==> ResolvedScale(t, s) == ScaleNone
  {
  }

  /** Exactly what set-up changes: an explicit scale is kept for L-BFGS,
      DEFAULT resolves by type; an explicit restart is kept; the function
      type changes exactly when it is DEFAULT under left preconditioning. */
  lemma ResolvedChoices(t: QNType, s: ScaleType, r: RestartType, side: PCSide, f: FunctionType)
    ensures t == LBFGS ==> (ResolvedScale(t, s) == s <==> s != ScaleDefault)
    ensures s == ScaleDefault ==> ResolvedScale(t, s) == (if t == LBFGS then ScaleScalar else ScaleNone)
    ensures ResolvedRestart(t, r) == r <==> r != RestartDefault
    ensures r == RestartDefault ==> (ResolvedRestart(t, r) == RestartPowell <==> t == LBFGS)
    ensures ResolvedFunctionType(side, f) != f <==> side == Left && f == FunctionDefault
  {
  }

  /** Setting up twice is the same as setting up once. */
  lemma ResolveIdempotent(t: QNType, s: ScaleType, r: RestartType, side: PCSide, f: FunctionType)
    ensures ResolvedScale(t, ResolvedScale(t, s)) == ResolvedScale(t, s)
    ensures ResolvedRestart(t, ResolvedRestart(t, r)) == ResolvedRestart(t, r)
    ensures ResolvedFunctionType(side, ResolvedFunctionType(side, f)) == ResolvedFunctionType(side, f)
  {
  }

  /** What the numerics of one iteration reported: whether the line search
      hit the function-evaluation limit, whether it failed, whether the
      nonlinear preconditioner diverged, the convergence test's reason (0 to
      go on) and whether Powell's angle condition held. */
  datatype Trial = Trial(functionCountExceeded: bool, lineSearchFailed: bool, innerDiverged: bool,
                         test: int, powellHolds: bool)

  /** The same for the set-up before the loop. */
  datatype Start = Start(innerDiverged: bool, test: int)

  /** What the loop needs to know about the solver. `npcRight` and
      `npcLeftUnpreconditioned` say where a nonlinear preconditioner is
      applied inside the loop. */
  datatype Params = Params(maxIts: int, maxFailures: int, m: int, restart: RestartType,
                           npcRight: bool, npcLeftUnpreconditioned: bool)

  /** Loop counters: `i` and `ir` are the loop's, the others the solver's. */
  datatype Counters = Counters(i: int, ir: int, numFailures: int, iter: int, reason: Reason)

  /** How an iteration ends: on to the next one, out of the loop to the
      iteration-limit check, or out of the solve altogether. */
  datatype Exit = Continued | Broke | Returned

  /** One iteration of the solve loop. */
  function Iterate(p: Params, c: Counters, t: Trial): (Counters, Exit)
  {
    if t.functionCountExceeded then (c.(reason := DivergedFunctionCount), Broke)
    else
      var nf := if t.lineSearchFailed then c.numFailures + 1 else c.numFailures;
      if t.lineSearchFailed && nf >= p.maxFailures then (c.(numFailures := nf, reason := DivergedLineSearch), Broke)
      else if p.npcRight && t.innerDiverged then (c.(numFailures := nf, reason := DivergedInner), Returned)
      else if t.test != 0 then (c.(numFailures := nf, iter := c.i + 1, reason := Tested(t.test)), Returned)
      else if p.npcLeftUnpreconditioned && t.innerDiverged then
        (c.(numFailures := nf, iter := c.i + 1, reason := DivergedInner), Returned)
      else
        var powell := p.restart == RestartPowell && c.ir > 1 && t.powellHolds;
        var periodic := p.restart == RestartPeriodic && c.ir > p.m - 1;
        var ir := if t.lineSearchFailed || powell || periodic then -1 else c.ir;
        (c.(numFailures := nf, iter := c.i + 1, i := c.i + 1, ir := ir + 1), Continued)
  }

  /** The loop from counters c on: iterate while i < max_its. */
  function Loop(p: Params, c: Counters, trials: seq<Trial>): (Counters, Exit)
    requires 0 <= c.i && p.maxIts <= |trials|
    decreases p.maxIts - c.i
  {
    if c.i >= p.maxIts then (c, Continued)
    else
      var (c', e) := Iterate(p, c, trials[c.i]);
      if e == Continued then Loop(p, c', trials) else (c', e)
  }

  /** After the loop (unless the solve returned from inside it): when all
      max_its iterations ran and nothing set a reason, the reason becomes
      DIVERGED_MAX_IT. */
  function Finish(p: Params, c: Counters, e: Exit): Counters
  {
    if e != Returned && c.i == p.maxIts && c.reason == Iterating then c.(reason := DivergedMaxIt) else c
  }

  /** The whole solve from the solver's failure count: the checks before
      the loop (a preconditioner applied from the left first, then the
      convergence test, then one applied from the right), the loop, and the
      iteration-limit rule. */
  function Solved(p: Params, npcLeftFirst: bool, numFailures: int, s: Start, trials: seq<Trial>): Counters
    requires p.maxIts <= |trials|
  {
    var c := Counters(0, 0, numFailures, 0, Iterating);
    if npcLeftFirst && s.innerDiverged then c.(reason := DivergedInner)
    else if s.test != 0 then c.(reason := Tested(s.test))
    else if p.npcRight && s.innerDiverged then c.(reason := DivergedInner)
    else
      var (c', e) := Loop(p, c, trials);
      Finish(p, c', e)
  }

  /** The failure counter counts failed line searches; the one that reaches
      max_failures stops the loop with DIVERGED_LINE_SEARCH, any other one
      marks the step bad and forces a restart. */
  lemma IterateFailures(p: Params, c: Counters, t: Trial)
    requires !t.functionCountExceeded
    ensures Iterate(p, c, t).0.numFailures == c.numFailures + (if t.lineSearchFailed then 1 else 0)
    ensures t.lineSearchFailed ==>
              (Iterate(p, c, t).1 == Broke <==> c.numFailures + 1 >= p.maxFailures)
    ensures t.lineSearchFailed && Iterate(p, c, t).1 == Continued ==> Iterate(p, c, t).0.ir == 0
  {
  }

  /** The restart counter: with PERIODIC restarts and no failed line
      search, the restart fires exactly when i_r > m - 1 and the next
      iteration starts from 0; Powell's condition is consulted only when
      i_r > 1. */
  lemma IterateRestart(p: Params, c: Counters, t: Trial)
    requires Iterate(p, c, t).1 == Continued && !t.lineSearchFailed
    ensures Iterate(p, c, t).0.i == c.i + 1 == Iterate(p, c, t).0.iter
    ensures p.restart == RestartPeriodic ==> Iterate(p, c, t).0.ir == (if c.ir > p.m - 1 then 0 else c.ir + 1)
    ensures p.restart == RestartPowell && c.ir <= 1 ==> Iterate(p, c, t).0.ir == c.ir + 1
    ensures p.restart == RestartNone ==> Iterate(p, c, t).0.ir == c.ir + 1
  {
  }

  /** With PERIODIC restarts and m >= 1 the restart counter stays in
      [0, m] at the head of every iteration. */
  lemma {:induction false} LoopRestartBound(p: Params, c: Counters, trials: seq<Trial>)
    requires 0 <= c.i && p.maxIts <= |trials|
    requires p.restart == RestartPeriodic && p.m >= 1 && 0 <= c.ir <= p.m
    ensures 0 <= Loop(p, c, trials).0.ir <= p.m
    decreases p.maxIts - c.i
  {
    if c.i < p.maxIts {
      var (c', e) := Iterate(p, c, trials[c.i]);
      if e == Continued {
        LoopRestartBound(p, c', trials);
      }
    }
  }

  /** How the loop ends: it runs out of iterations with no reason set
      (`i == max_its`), or it leaves early with a reason and `i < max_its`.
      The iteration number never passes i. */
  lemma {:induction false} LoopEnds(p: Params, c: Counters, trials: seq<Trial>)
    requires 0 <= c.i <= p.maxIts <= |trials| && c.reason == Iterating && c.iter <= c.i
    ensures Loop(p, c, trials).1 == Continued ==>
              Loop(p, c, trials).0.i == p.maxIts && Loop(p, c, trials).0.reason == Iterating
    ensures Loop(p, c, trials).1 != Continued ==>
              Loop(p, c, trials).0.i < p.maxIts && Loop(p, c, trials).0.reason !in {Iterating, DivergedMaxIt}
    ensures Loop(p, c, trials).0.iter <= Loop(p, c, trials).0.i + 1
    ensures Loop(p, c, trials).1 == Continued ==> Loop(p, c, trials).0.iter <= p.maxIts
    decreases p.maxIts - c.i
  {
    if c.i < p.maxIts {
      var (c', e) := Iterate(p, c, trials[c.i]);
      if e == Continued {
        LoopEnds(p, c', trials);
      }
    }
  }

  /** Every solve with a non-negative iteration limit ends with a reason;
      DIVERGED_MAX_IT is reported exactly when all max_its iterations ran
      without anything else stopping the solve, and DIVERGED_LINE_SEARCH
      only once the failure count has reached max_failures. */
  lemma SolveEnds(p: Params, npcLeftFirst: bool, numFailures: int, s: Start, trials: seq<Trial>)
    requires 0 <= p.maxIts <= |trials|
    ensures Solved(p, npcLeftFirst, numFailures, s, trials).reason != Iterating
    ensures Solved(p, npcLeftFirst, numFailures, s, trials).reason == DivergedMaxIt <==>
              !(npcLeftFirst && s.innerDiverged) && s.test == 0 && !(p.npcRight && s.innerDiverged) &&
              Loop(p, Counters(0, 0, numFailures, 0, Iterating), trials).1 == Continued
    ensures Solved(p, npcLeftFirst, numFailures, s, trials).reason == DivergedMaxIt ==>
              Solved(p, npcLeftFirst, numFailures, s, trials).i == p.maxIts
    ensures Solved(p, npcLeftFirst, numFailures, s, trials).reason == DivergedLineSearch ==>
              Solved(p, npcLeftFirst, numFailures, s, trials).numFailures >= p.maxFailures
  {
    var c := Counters(0, 0, numFailures, 0, Iterating);
    LoopEnds(p, c, trials);
    LoopFailures(p, c, trials);
  }

  /** The loop sets DIVERGED_LINE_SEARCH only with the failure count at
      max_failures or beyond. */
  lemma {:induction false} LoopFailures(p: Params, c: Counters, trials: seq<Trial>)
    requires 0 <= c.i && p.maxIts <= |trials| && c.reason == Iterating
    ensures Loop(p, c, trials).0.reason == DivergedLineSearch ==> Loop(p, c, trials).0.numFailures >= p.maxFailures
    decreases p.maxIts - c.i
  {
    if c.i < p.maxIts {
      var (c', e) := Iterate(p, c, trials[c.i]);
      if e == Continued {
        LoopFailures(p, c', trials);
      }
    }
  }

  /** Every field of the solver except the three the solve updates
      (failure count, iteration number, reason). */
  datatype QNConfig = QNConfig(npcside: PCSide, functype: FunctionType, usesnpc: bool, usesksp: bool,
                               tolerancesSet: bool, maxIts: int, maxFuncs: int, maxFailures: int,
                               hasBounds: bool, hasNpc: bool,
                               m: int, qnType: QNType, scaleType: ScaleType, restartType: RestartType)

  /** The solver object, with the fields the QN solver reads and writes:
      those of the generic solver and those of its private QN data. */
  class Snes {
    /** Generic solver fields. */
    var npcside: PCSide
    var functype: FunctionType
    var usesnpc: bool
    var usesksp: bool
    var tolerancesSet: bool
    var maxIts: int
    var maxFuncs: int
    var maxFailures: int
    var numFailures: int
    var iter: int
    var reason: Reason
    /** Whether variable bounds were supplied, and whether a nonlinear
        preconditioner is attached. */
    var hasBounds: bool
    var hasNpc: bool
    /** QN data: history size and the three choices. */
    var m: int
    var qnType: QNType
    var scaleType: ScaleType
    var restartType: RestartType

    /** Turns a solver whose generic fields are as given into a QN solver:
        left preconditioning, no linear solver, history of 10 steps, L-BFGS
        with DEFAULT scaling and restart, and the QN iteration limits unless
        the user already set tolerances. */
    constructor (tolerancesSet: bool, maxIts: int, maxFuncs: int, maxFailures: int, functype: FunctionType,
                 hasBounds: bool, hasNpc: bool)
      ensures npcside == Left && usesnpc && !usesksp && this.functype == functype
      ensures this.tolerancesSet == tolerancesSet
      ensures this.maxIts == (if tolerancesSet then maxIts else 10000)
      ensures this.maxFuncs == (if tolerancesSet then maxFuncs else 30000)
      ensures this.maxFailures == maxFailures && numFailures == 0 && iter == 0 && reason == Iterating
      ensures this.hasBounds == hasBounds && this.hasNpc == hasNpc
      ensures m == 10 && qnType == LBFGS && scaleType == ScaleDefault && restartType == RestartDefault
    {
      npcside := Left;
      usesnpc, usesksp := true, false;
      this.functype, this.tolerancesSet := functype, tolerancesSet;
      this.maxIts, this.maxFuncs := maxIts, maxFuncs;
      if !tolerancesSet {
        this.maxFuncs := 30000;
        this.maxIts := 10000;
      }
      this.maxFailures, numFailures, iter, reason := maxFailures, 0, 0, Iterating;
      this.hasBounds, this.hasNpc := hasBounds, hasNpc;
      m := 10;
      scaleType := ScaleDefault;
      restartType := RestartDefault;
      qnType := LBFGS;
    }

    /** The settings, as one value. */
    function Config(): QNConfig
      reads this
    {
      QNConfig(npcside, functype, usesnpc, usesksp, tolerancesSet, maxIts, maxFuncs, maxFailures,
               hasBounds, hasNpc, m, qnType, scaleType, restartType)
    }

    /** Resolves the DEFAULT choices (see `ResolvedScale`,
        `ResolvedRestart`, `ResolvedFunctionType`); nothing else changes. */
    method SetUp()
      modifies this
      ensures functype == ResolvedFunctionType(npcside, old(functype))
      ensures scaleType == ResolvedScale(qnType, old(scaleType))
      ensures restartType == ResolvedRestart(qnType, old(restartType))
      ensures Config() == old(Config()).(functype := functype, scaleType := scaleType, restartType := restartType)
      ensures numFailures == old(numFailures) && iter == old(iter) && reason == old(reason)
    {
      ghost var before := Config();
      var ftype, stype, rtype := functype, scaleType, restartType;
      if npcside == Left && ftype == FunctionDefault {
        ftype := Unpreconditioned;
      }
      if stype == ScaleDefault {
        if qnType == BadBroyden {
          stype := ScaleNone;
        } else {
          stype := ScaleScalar;
        }
      }
      if rtype == RestartDefault {
        if qnType == LBFGS {
          rtype := RestartPowell;
        } else {
          rtype := RestartPeriodic;
        }
      }
      match qnType {
        case Broyden => stype := ScaleNone;
        case BadBroyden => stype := ScaleNone;
        case LBFGS =>
      }
      functype, scaleType, restartType := ftype, stype, rtype;
      assert Config() == before.(functype := ftype, scaleType := stype, restartType := rtype);
    }

    /** Stores the scale type; choosing JACOBIAN also makes the solver use
        a linear solver, and no choice ever stops it. */
    method SetScaleType(stype: ScaleType)
      modifies this
      ensures scaleType == stype && usesksp == (old(usesksp) || stype == ScaleJacobian)
      ensures Config() == old(Config()).(scaleType := stype, usesksp := usesksp)
      ensures numFailures == old(numFailures) && iter == old(iter) && reason == old(reason)
    {
      scaleType := stype;
      if stype == ScaleJacobian {
        usesksp := true;
      }
    }

    /** Stores the restart type and nothing else. */
    method SetRestartType(rtype: RestartType)
      modifies this
      ensures Config() == old(Config()).(restartType := rtype)
      ensures numFailures == old(numFailures) && iter == old(iter) && reason == old(reason)
    {
      restartType := rtype;
    }

    /** Stores the QN variant and nothing else. */
    method SetType(qtype: QNType)
      modifies this
      ensures Config() == old(Config()).(qnType := qtype)
      ensures numFailures == old(numFailures) && iter == old(iter) && reason == old(reason)
    {
      qnType := qtype;
    }

    function LoopParams(): Params
      reads this
    {
      Params(maxIts, maxFailures, m, restartType, hasNpc && npcside == Right,
             hasNpc && npcside == Left && functype == Unpreconditioned)
    }

    /** One pass of the loop body with loop counters i and i_r: the line
        search outcome, the failure count, the preconditioner, the iteration
        number, the convergence test and the restart decision. Returns the
        next counters and how the pass ends. */
    method Iteration(t: Trial, i: int, ir: int) returns (i': int, ir': int, e: Exit)
      requires reason == Iterating
      modifies this
      ensures (Counters(i', ir', numFailures, iter, reason), e) ==
              Iterate(old(LoopParams()), Counters(i, ir, old(numFailures), old(iter), Iterating), t)
      ensures Config() == old(Config())
    {
      i', ir', e := i, ir, Returned;
      if t.functionCountExceeded {
        reason := DivergedFunctionCount;
        return i', ir', Broke;
      }
      var badstep := false;
      if t.lineSearchFailed {
        numFailures := numFailures + 1;
        if numFailures >= maxFailures {
          reason := DivergedLineSearch;
          return i', ir', Broke;
        }
        badstep := true;
      }
      if hasNpc && npcside == Right && t.innerDiverged {
        reason := DivergedInner;
        return;
      }
      iter := i + 1;
      if t.test != 0 {
        reason := Tested(t.test);
        return;
      }
      if hasNpc && npcside == Left && functype == Unpreconditioned && t.innerDiverged {
        reason := DivergedInner;
        return;
      }
      var powell := restartType == RestartPowell && ir > 1 && t.powellHolds;
      var periodic := restartType == RestartPeriodic && ir > m - 1;
      if badstep || powell || periodic {
        ir' := -1;
      }
      i', ir', e := i + 1, ir' + 1, Continued;
    }

    /** The solve: refuses bounds; otherwise runs the checks before the
        loop, the loop of at most max_its iterations with its restart and
        failure bookkeeping, and the iteration-limit rule, leaving the
        failure count, iteration number and reason as `Solved` says. */
    method Solve(s: Start, trials: seq<Trial>) returns (err: bool)
      requires maxIts <= |trials|
      modifies this
      ensures err == old(hasBounds)
      ensures Config() == old(Config())
      ensures err ==> numFailures == old(numFailures) && iter == old(iter) && reason == old(reason)
      ensures !err ==>
                var r := Solved(old(LoopParams()),
                                old(hasNpc && npcside == Left && (functype == Preconditioned || functype == Unpreconditioned)),
                                old(numFailures), s, trials);
                numFailures == r.numFailures && iter == r.iter && reason == r.reason
    {
      if hasBounds {
        return true;
      }
      err := false;
      ghost var p := LoopParams();
      reason := Iterating;
      iter := 0;
      if hasNpc && npcside == Left && (functype == Preconditioned || functype == Unpreconditioned) && s.innerDiverged {
        reason := DivergedInner;
        return;
      }
      if s.test != 0 {
        reason := Tested(s.test);
        return;
      }
      if hasNpc && npcside == Right && s.innerDiverged {
        reason := DivergedInner;
        return;
      }
      RunLoop(p, trials);
    }

    /** The iteration loop of the solve and the iteration-limit rule after
        it, from a clean start: `Loop` then `Finish`. */
    method RunLoop(ghost p: Params, trials: seq<Trial>)
      requires p == LoopParams() && maxIts <= |trials|
      requires reason == Iterating && iter == 0
      modifies this
      ensures var (c, e) := Loop(p, Counters(0, 0, old(numFailures), 0, Iterating), trials);
              var f := Finish(p, c, e);
              numFailures == f.numFailures && iter == f.iter && reason == f.reason
      ensures Config() == old(Config())
    {
      ghost var c0 := Counters(0, 0, numFailures, 0, Iterating);
      var i, ir := 0, 0;
      while i < maxIts
        invariant 0 <= i && p == LoopParams() && Config() == old(Config())
        invariant reason == Iterating
        invariant Loop(p, Counters(i, ir, numFailures, iter, reason), trials) == Loop(p, c0, trials)
        decreases maxIts - i
      {
        var e;
        i, ir, e := Iteration(trials[i], i, ir);
        if e == Broke {
          break;
        } else if e == Returned {
          return;
        }
      }
      if i == maxIts {
        if reason == Iterating {
          reason := DivergedMaxIt;
        }
      }
    }
  }
}

/** CVC4Solver.solve: one query (flip the constraint at index) answered in
    two layers. The integer layer is solved first; its solution seeds the
    string layer; when the string layer fails, the integer solution is
    excluded and the integer layer tried again, at most MaxCount times. The
    external solver process is an oracle from the declared names and the
    formula lines to the lines it prints. */
module Solver {
  import opened Wrappers
  import opened JavaText
  import opened Constraints
  import opened Printing
  import opened Formula
  import opened Response
  import opened Inputs

  /** The bound on rounds in solve(). */
  const MaxCount: nat := 100

  /** The external solver: what it prints for a formula file. */
  type Oracle = (seq<string>, seq<string>) -> seq<string>

  /** The state CVC4Solver is given before solve(): the inputs, the path
      constraint and the index to flip, plus the collaborators, the scope
      configuration and the external solver. */
  datatype Query = Query(constraints: seq<Constraint>, index: nat, inputs: seq<InputElement>,
                         co: Collaborators, scope: ScopeConfig, oracle: Oracle)

  /** What solve(extra, type, soln) returns, with the map it leaves: a
      negated solution ("" when the formula is trivially true), null, or the
      halt or exception. */
  datatype LayerAnswer =
    | Negated(clause: string, soln: map<string, int>)
    | NoSolution
    | Fatal(reason: string)

  /** solve(extra, type, soln): TRUE and FALSE answer without the solver;
      otherwise the solver's answer is parsed. */
  function LayerOf(q: Query, extra: Option<string>, ty: ConstraintType, soln: map<string, int>): LayerAnswer
    requires q.index < |q.constraints|
  {
    match FormulaOf(q.constraints, q.index, extra, ty, soln, q.co)
    case QuickFalse => NoSolution
    case Crash(e) => Fatal(e)
    case Written(lines, fv, allTrue) =>
      if allTrue then Negated("", soln)
      else
        match ResponseOf(q.oracle(fv, lines), soln)
        case Sat(neg, s) => Negated(neg, s)
        case Unsat => NoSolution
        case Halt(e) => Fatal(e)
  }

  /** CVC4Solver.solve(extra, type, soln). */
  method SolveLayer(q: Query, extra: Option<string>, ty: ConstraintType, soln: map<string, int>)
    returns (r: LayerAnswer)
    requires q.index < |q.constraints|
    ensures r == LayerOf(q, extra, ty, soln)
  {
    var res := WriteFormula(q.constraints, q.index, extra, ty, soln, q.co);
    if res.QuickFalse? {
      return NoSolution;
    }
    if res.Crash? {
      return Fatal(res.reason);
    }
    if res.allTrue {
      return Negated("", soln);
    }
    var answer := q.oracle(res.freeVars, res.lines);
    var parsed := ProcessInputs(answer, soln);
    match parsed
    case Sat(neg, s) => r := Negated(neg, s);
    case Unsat => r := NoSolution;
    case Halt(e) => r := Fatal(e);
  }

  /** The shortcuts never consult the external solver: with the TRUE answer
      the layer succeeds with the empty clause and the map untouched, with
      the FALSE answer it fails, whatever the solver would have said. */
  lemma ShortcutsIgnoreSolver(q: Query, other: Oracle, extra: Option<string>, ty: ConstraintType,
                              soln: map<string, int>)
    requires q.index < |q.constraints|
    ensures var f := FormulaOf(q.constraints, q.index, extra, ty, soln, q.co);
            (f.Written? && f.allTrue ==>
               LayerOf(q, extra, ty, soln) == LayerOf(q.(oracle := other), extra, ty, soln) == Negated("", soln))
            && (f.QuickFalse? ==>
               LayerOf(q, extra, ty, soln) == LayerOf(q.(oracle := other), extra, ty, soln) == NoSolution)
  {
  }

  /** The quick-UNSAT shortcut seen from the layer: a string predicate
      negated in the integer layer after an identical one earlier in the
      path is infeasible without the solver. */
  lemma DuplicatePredicateInfeasible(q: Query, extra: Option<string>, soln: map<string, int>, i: nat)
    requires q.index < |q.constraints| && i < q.index
    requires q.constraints[q.index].StrPred? && q.constraints[i] == q.constraints[q.index]
    ensures LayerOf(q, extra, INT, soln) == NoSolution
  {
  }

  // ---- solve() ----------------------------------------------------------

  /** The two layers of one query as a function of the exclusion clause,
      the layer and the incoming map: the retry loop sees the layers only
      through their answers. */
  type Layers = (Option<string>, ConstraintType, map<string, int>) -> LayerAnswer

  function LayersOf(q: Query): Layers
    requires q.index < |q.constraints|
  {
    (extra: Option<string>, ty: ConstraintType, soln: map<string, int>) => LayerOf(q, extra, ty, soln)
  }

  /** layers answers as the two layers of q do. */
  ghost predicate LayersFor(q: Query, layers: Layers)
    requires q.index < |q.constraints|
  {
    forall extra, ty, soln {:trigger LayerOf(q, extra, ty, soln)} ::
      layers(extra, ty, soln) == LayerOf(q, extra, ty, soln)
  }

  lemma LayersOfIsFor(q: Query)
    requires q.index < |q.constraints|
    ensures LayersFor(q, LayersOf(q))
  {
  }

  /** One round of solve(): the integer layer with the current exclusion
      clause on a fresh map, then, if it succeeded, the string layer on the
      map it produced. */
  datatype Round = Round(extra: Option<string>, intLayer: LayerAnswer, strLayer: Option<LayerAnswer>)

  function RoundOf(layers: Layers, extra: Option<string>): Round {
    var a := layers(extra, INT, map[]);
    Round(extra, a, if a.Negated? then Some(layers(None, STR, a.soln)) else None)
  }

  /** The integer layer succeeded and the string layer did not: try again. */
  predicate Retry(r: Round) {
    r.intLayer.Negated? && r.strLayer == Some(NoSolution)
  }

  /** The exclusion clause of the next round: the negated integer solution
      conjoined to the current clause. */
  function NextExtra(r: Round): Option<string>
    requires r.intLayer.Negated?
  {
    Some(if r.extra.Some? then r.extra.value + " AND " + r.intLayer.clause else r.intLayer.clause)
  }

  /** The rounds solve() goes through, from round count on. */
  function Trace(layers: Layers, extra: Option<string>, count: nat): seq<Round>
    decreases MaxCount - count
  {
    if count >= MaxCount then []
    else
      var r := RoundOf(layers, extra);
      if Retry(r) then [r] + Trace(layers, NextExtra(r), count + 1) else [r]
  }

  /** The outcome of solve(): feasible with the new input file, infeasible,
      or the halt or exception that ends the run. */
  datatype Verdict = Feasible(inputsFile: seq<string>) | Infeasible | Halted(reason: string)

  /** The outcome decided by the last round. */
  function VerdictOf(q: Query, trace: seq<Round>): Verdict {
    if |trace| == 0 then Infeasible
    else
      var last := trace[|trace| - 1];
      match last.intLayer
      case Fatal(e) => Halted(e)
      case NoSolution => Infeasible
      case Negated(_, _) =>
        if last.strLayer.None? then Infeasible
        else
          match last.strLayer.value
          case Fatal(e) => Halted(e)
          case NoSolution => Infeasible
          case Negated(_, s) =>
            match InputsFile(q.inputs, q.scope, s, q.co)
            case Ok(lines) => Feasible(lines)
            case Err(e) => Halted(e)
  }

  /** One pass of the loop body of solve(): the integer layer on a fresh
      map and, when it succeeds, the string layer on the map it left. */
  method SolveRound(q: Query, extra: Option<string>, ghost layers: Layers) returns (r: Round)
    requires q.index < |q.constraints| && LayersFor(q, layers)
    ensures r == RoundOf(layers, extra)
  {
    var soln: map<string, int> := map[];
    var neg := SolveLayer(q, extra, INT, soln);
    if neg.Negated? {
      soln := neg.soln;
      var neg2 := SolveLayer(q, None, STR, soln);
      r := Round(extra, neg, Some(neg2));
    } else {
      r := Round(extra, neg, None);
    }
  }

  /** CVC4Solver.solve(): the retry loop, for the layer function of q
      (LayersOf(q) is one), from the first round with no exclusion clause. */
  method Solve(q: Query, ghost layers: Layers) returns (v: Verdict)
    requires q.index < |q.constraints| && LayersFor(q, layers)
    ensures v == VerdictOf(q, Trace(layers, None, 0))
  {
    v := SolveFrom(q, layers, None, 0);
  }

  /** The retry loop of solve() from round start on, with exclusion clause
      first. */
  method SolveFrom(q: Query, ghost layers: Layers, first: Option<string>, start: nat) returns (v: Verdict)
    requires q.index < |q.constraints| && LayersFor(q, layers)
    ensures v == VerdictOf(q, Trace(layers, first, start))
  {
    var count := start;
    var extra := first;
    ghost var done: seq<Round> := [];
    ghost var whole := Trace(layers, first, start);
    assert done + whole == whole;
    while count < MaxCount
      invariant done + Trace(layers, extra, count) == whole
      invariant |done| == 0 || Retry(done[|done| - 1])
      decreases MaxCount - count
    {
      var round := SolveRound(q, extra, layers);
      if round.intLayer.Negated? && round.strLayer == Some(NoSolution) {
        TraceAdvances(layers, done, extra, count, whole);
        done := done + [round];
        if extra.Some? {
          extra := Some(extra.value + " AND " + round.intLayer.clause);
        } else {
          extra := Some(round.intLayer.clause);
        }
        assert extra == NextExtra(round);
        count := count + 1;
      } else {
        v := Stop(q, layers, done, extra, count, whole, round);
        return;
      }
    }
    Exhausted(q, layers, done, extra, count, whole);
    v := Infeasible;
  }

  /** The loop ends on a round that is not a retry: that round decides. */
  method Stop(q: Query, ghost layers: Layers, ghost done: seq<Round>, ghost extra: Option<string>,
              ghost count: nat, ghost whole: seq<Round>, round: Round) returns (v: Verdict)
    requires count < MaxCount && round == RoundOf(layers, extra) && !Retry(round)
    requires done + Trace(layers, extra, count) == whole
    ensures v == VerdictOf(q, whole)
  {
    TraceEnds(layers, done, extra, count, whole);
    VerdictOfLast(q, done, round);
    v := Conclude(q, round);
  }

  /** The loop runs out of rounds after retries only: infeasible. */
  lemma Exhausted(q: Query, layers: Layers, done: seq<Round>, extra: Option<string>, count: nat, whole: seq<Round>)
    requires count >= MaxCount && done + Trace(layers, extra, count) == whole
    requires |done| == 0 || Retry(done[|done| - 1])
    ensures VerdictOf(q, whole) == Infeasible
  {
    assert done == whole;
  }

  /** A retry moves one round from the rest of the trace to the rounds
      done. */
  lemma TraceAdvances(layers: Layers, done: seq<Round>, extra: Option<string>, count: nat, whole: seq<Round>)
    requires count < MaxCount && Retry(RoundOf(layers, extra))
    requires done + Trace(layers, extra, count) == whole
    ensures var r := RoundOf(layers, extra);
      (done + [r]) + Trace(layers, NextExtra(r), count + 1) == whole
  {
    var r := RoundOf(layers, extra);
    TraceRetries(layers, extra, count);
    assert (done + [r]) + Trace(layers, NextExtra(r), count + 1) == done + ([r] + Trace(layers, NextExtra(r), count + 1));
  }

  /** A round that is not a retry is the last of the trace. */
  lemma TraceEnds(layers: Layers, done: seq<Round>, extra: Option<string>, count: nat, whole: seq<Round>)
    requires count < MaxCount && !Retry(RoundOf(layers, extra))
    requires done + Trace(layers, extra, count) == whole
    ensures done + [RoundOf(layers, extra)] == whole
  {
    TraceStops(layers, extra, count);
  }

  /** The end of solve() after a round that is not a retry: writeInputs on
      success, false on an infeasible integer layer, the halt otherwise. */
  method Conclude(q: Query, round: Round) returns (v: Verdict)
    requires round.intLayer.Negated? ==> round.strLayer.Some?
    ensures v == VerdictOf(q, [round])
  {
    match round.intLayer
    case Fatal(e) => v := Halted(e);
    case NoSolution => v := Infeasible;
    case Negated(_, _) =>
      match round.strLayer.value
      case Fatal(e) => v := Halted(e);
      case NoSolution => v := Infeasible;
      case Negated(_, s) =>
        var file := WriteInputs(q.inputs, q.scope, s, q.co);
        if file.Err? {
          v := Halted(file.reason);
        } else {
          v := Feasible(file.value);
        }
  }

  lemma TraceStops(layers: Layers, extra: Option<string>, count: nat)
    requires count < MaxCount && !Retry(RoundOf(layers, extra))
    ensures Trace(layers, extra, count) == [RoundOf(layers, extra)]
  {
  }

  lemma TraceRetries(layers: Layers, extra: Option<string>, count: nat)
    requires count < MaxCount && Retry(RoundOf(layers, extra))
    ensures Trace(layers, extra, count)
         == [RoundOf(layers, extra)] + Trace(layers, NextExtra(RoundOf(layers, extra)), count + 1)
  {
  }

  /** A round that runs starts from the clause it was given. */
  lemma TraceHead(layers: Layers, extra: Option<string>, count: nat)
    requires count < MaxCount
    ensures |Trace(layers, extra, count)| > 0 && Trace(layers, extra, count)[0].extra == extra
  {
  }

  /** The verdict is read off the round that ends the loop. */
  lemma VerdictOfLast(q: Query, done: seq<Round>, last: Round)
    ensures VerdictOf(q, done + [last]) == VerdictOf(q, [last])
  {
  }

  // ---- properties of solve() --------------------------------------------

  /** The length of the loop: between one and MaxCount rounds, the first
      with the clause it starts from; only a run of MaxCount retries ends on
      a retry. */
  lemma {:induction false} TraceLength(layers: Layers, extra: Option<string>, count: nat)
    requires count <= MaxCount
    ensures |Trace(layers, extra, count)| <= MaxCount - count
    ensures count < MaxCount ==>
              |Trace(layers, extra, count)| >= 1 && Trace(layers, extra, count)[0] == RoundOf(layers, extra)
    ensures var t := Trace(layers, extra, count);
      |t| > 0 && Retry(t[|t| - 1]) ==> |t| == MaxCount - count
    decreases MaxCount - count, 1
  {
    if count < MaxCount {
      if Retry(RoundOf(layers, extra)) {
        TraceLengthRetry(layers, extra, count);
      } else {
        TraceStops(layers, extra, count);
      }
    }
  }

  lemma {:induction false} TraceLengthRetry(layers: Layers, extra: Option<string>, count: nat)
    requires count < MaxCount && Retry(RoundOf(layers, extra))
    ensures var t := Trace(layers, extra, count);
      && 1 <= |t| <= MaxCount - count
      && t[0] == RoundOf(layers, extra)
      && (Retry(t[|t| - 1]) ==> |t| == MaxCount - count)
    decreases MaxCount - count, 0
  {
    var r := RoundOf(layers, extra);
    var rest := Trace(layers, NextExtra(r), count + 1);
    TraceRetries(layers, extra, count);
    TraceLength(layers, NextExtra(r), count + 1);
    if |rest| > 0 {
      assert ([r] + rest)[|rest|] == rest[|rest| - 1];
    }
  }

  /** Every round of t is the round for its own clause. */
  predicate OwnRounds(layers: Layers, t: seq<Round>) {
    forall i :: 0 <= i < |t| ==> t[i] == RoundOf(layers, t[i].extra)
  }

  /** Every round of the loop is the round for its own clause. */
  lemma {:induction false} TraceRounds(layers: Layers, extra: Option<string>, count: nat)
    ensures OwnRounds(layers, Trace(layers, extra, count))
    decreases MaxCount - count, 1
  {
    if count < MaxCount {
      if Retry(RoundOf(layers, extra)) {
        TraceRoundsRetry(layers, extra, count);
      } else {
        TraceStops(layers, extra, count);
      }
    }
  }

  lemma {:induction false} TraceRoundsRetry(layers: Layers, extra: Option<string>, count: nat)
    requires count < MaxCount && Retry(RoundOf(layers, extra))
    ensures OwnRounds(layers, Trace(layers, extra, count))
    decreases MaxCount - count, 0
  {
    var r := RoundOf(layers, extra);
    var rest := Trace(layers, NextExtra(r), count + 1);
    TraceRetries(layers, extra, count);
    TraceRounds(layers, NextExtra(r), count + 1);
    OwnRoundsCons(layers, r, rest);
  }

  lemma OwnRoundsCons(layers: Layers, r: Round, rest: seq<Round>)
    requires r == RoundOf(layers, r.extra) && OwnRounds(layers, rest)
    ensures OwnRounds(layers, [r] + rest)
  {
    var t := [r] + rest;
    forall i | 0 <= i < |t|
      ensures t[i] == RoundOf(layers, t[i].extra)
    {
      if i > 0 {
        assert t[i] == rest[i - 1];
      }
    }
  }

  /** Every round but the last is a retry, and the clause of the next round
      extends its clause with ` AND ` and its negated solution. */
  predicate Chained(t: seq<Round>) {
    forall i :: 0 <= i < |t| - 1 ==> Retry(t[i]) && t[i + 1].extra == NextExtra(t[i])
  }

  lemma ChainedCons(r: Round, rest: seq<Round>)
    requires Retry(r) && Chained(rest)
    requires |rest| > 0 ==> rest[0].extra == NextExtra(r)
    ensures Chained([r] + rest)
  {
    var t := [r] + rest;
    forall i | 0 <= i < |t| - 1
      ensures Retry(t[i]) && t[i + 1].extra == NextExtra(t[i])
    {
      if i > 0 {
        assert t[i] == rest[i - 1] && t[i + 1] == rest[i];
      }
    }
  }

  /** The rounds of the loop form such a chain. */
  lemma {:induction false} TraceChain(layers: Layers, extra: Option<string>, count: nat)
    ensures Chained(Trace(layers, extra, count))
    decreases MaxCount - count, 1
  {
    if count < MaxCount {
      if Retry(RoundOf(layers, extra)) {
        TraceChainRetry(layers, extra, count);
      } else {
        TraceStops(layers, extra, count);
      }
    }
  }

  /** A retry heads the chain the next round starts. */
  lemma {:induction false} TraceChainRetry(layers: Layers, extra: Option<string>, count: nat)
    requires count < MaxCount && Retry(RoundOf(layers, extra))
    ensures Chained(Trace(layers, extra, count))
    decreases MaxCount - count, 0
  {
    var r := RoundOf(layers, extra);
    var next := NextExtra(r);
    var rest := Trace(layers, next, count + 1);
    TraceRetries(layers, extra, count);
    TraceChain(layers, next, count + 1);
    if count + 1 < MaxCount {
      TraceHead(layers, next, count + 1);
    }
    ChainedCons(r, rest);
  }

  /** solve() is feasible exactly when the last round has both layers
      succeed and the file can be rebuilt; the file is then the one rebuilt
      from the string layer's map. A failing integer layer is final. */
  lemma FeasibleIffBothLayers(q: Query, layers: Layers)
    ensures var t := Trace(layers, None, 0);
      && |t| > 0
      && var last := t[|t| - 1];
      && (VerdictOf(q, t).Feasible? <==>
            last.intLayer.Negated? && last.strLayer.Some? && last.strLayer.value.Negated?
            && InputsFile(q.inputs, q.scope, last.strLayer.value.soln, q.co).Ok?)
      && (VerdictOf(q, t).Feasible? ==>
            InputsFile(q.inputs, q.scope, last.strLayer.value.soln, q.co) == Ok(VerdictOf(q, t).inputsFile))
      && (last.intLayer.NoSolution? ==> VerdictOf(q, t) == Infeasible)
  {
    TraceLength(layers, None, 0);
    VerdictOfRounds(q, Trace(layers, None, 0));
  }

  /** The verdict of any non-empty run of rounds, read off its last one. */
  lemma VerdictOfRounds(q: Query, t: seq<Round>)
    requires |t| > 0
    ensures var last := t[|t| - 1];
      && (VerdictOf(q, t).Feasible? <==>
            last.intLayer.Negated? && last.strLayer.Some? && last.strLayer.value.Negated?
            && InputsFile(q.inputs, q.scope, last.strLayer.value.soln, q.co).Ok?)
      && (VerdictOf(q, t).Feasible? ==>
            InputsFile(q.inputs, q.scope, last.strLayer.value.soln, q.co) == Ok(VerdictOf(q, t).inputsFile))
      && (last.intLayer.NoSolution? ==> VerdictOf(q, t) == Infeasible)
  {
  }

  /** The first round's integer layer deciding infeasible (the negated target
      is unsatisfiable under the prefix) ends solve() with false. */
  lemma IntInfeasibleStops(q: Query)
    requires q.index < |q.constraints| && LayerOf(q, None, INT, map[]) == NoSolution
    ensures VerdictOf(q, Trace(LayersOf(q), None, 0)) == Infeasible
  {
    TraceStops(LayersOf(q), None, 0);
  }

  /** With a solver that always answers unsat, solve() can only succeed
      through the TRUE shortcut of both layers: it never produces a file
      from a solver model. */
  lemma UnsatSolverNeverModels(q: Query)
    requires q.index < |q.constraints|
    requires forall fv, ls :: q.oracle(fv, ls) == ["unsat"]
    ensures VerdictOf(q, Trace(LayersOf(q), None, 0)).Feasible? ==>
              var f := FormulaOf(q.constraints, q.index, None, INT, map[], q.co);
              f.Written? && f.allTrue
  {
    var a := LayerOf(q, None, INT, map[]);
    var f := FormulaOf(q.constraints, q.index, None, INT, map[], q.co);
    if f.Written? && !f.allTrue {
      var ans := q.oracle(f.freeVars, f.lines);
      assert ans == ["unsat"];
      UnsatAnswer("unsat", [], map[]);
      assert ResponseOf(ans, map[]) == Unsat;
    }
  }

  /** The integer layer of the example: the solver answers `sat` and binds
      x3 to 7; the map gains x3 = 7 and the clause excluding this solution is
      `(NOT ((x3 = 7 )))`. */
  lemma IntLayerExample(q: Query, extra: Option<string>)
    requires q.index < |q.constraints|
    requires var f := FormulaOf(q.constraints, q.index, extra, INT, map[], q.co);
             f.Written? && !f.allTrue && q.oracle(f.freeVars, f.lines) == ["sat", "x3 : INT = 7;"]
    ensures LayerOf(q, extra, INT, map[]) == Negated("(NOT ((x3 = 7 )))", map["x3" := 7])
  {
    ExampleAnswer();
  }

  /** End to end: the solver binds x3 to 7 in the integer layer and the
      string layer has nothing left to solve; solve() then succeeds in its
      first round, and the new input file has `7` on the line of input 3
      while every other scalar input keeps its previous value. */
  lemma EndToEndExample(q: Query, k: nat)
    requires q.index < |q.constraints|
    requires var f := FormulaOf(q.constraints, q.index, None, INT, map[], q.co);
             f.Written? && !f.allTrue && q.oracle(f.freeVars, f.lines) == ["sat", "x3 : INT = 7;"]
    requires var g := FormulaOf(q.constraints, q.index, None, STR, map["x3" := 7], q.co);
             g.Written? && g.allTrue
    requires k < |q.inputs| && q.inputs[k].symbol == 3 && q.scope.beginSymbol != 3 && q.scope.endSymbol != 3
    requires forall j :: 0 <= j < |q.inputs| ==> q.inputs[j].value.Scalar?
    ensures VerdictOf(q, Trace(LayersOf(q), None, 0)).Feasible?
    ensures var file := VerdictOf(q, Trace(LayersOf(q), None, 0)).inputsFile;
      |file| == |q.inputs| && file[k] == "7"
      && forall j :: 0 <= j < |q.inputs| && q.inputs[j].symbol !in {3, q.scope.beginSymbol, q.scope.endSymbol} ==>
           file[j] == q.inputs[j].value.text
  {
    IntLayerExample(q, None);
    SolvedVariableRewritten(q.inputs, q.scope, map["x3" := 7], q.co, k);
  }
}

/** The formula file CVC4Solver.writeFormula produces for one layer of one
    query: the path-constraint prefix asserted under the partial solution,
    an optional exclusion clause, and the negated target. The file is
    modelled as its sequence of lines; the declarations that concatFile puts
    in front of it are represented by the free-variable set returned beside
    the lines. */
module Formula {
  import opened Wrappers
  import opened JavaText
  import opened Constraints
  import opened Printing

  // ---- quickUnsatCheck --------------------------------------------------

  /** The shortcut that answers FALSE without writing a formula: in the
      integer layer, the target is a string predicate that already occurs
      earlier in the path. */
  predicate QuickUnsat(cs: seq<Constraint>, index: int, ty: ConstraintType)
    requires 0 <= index < |cs|
  {
    ty == INT && cs[index].StrPred? && exists i :: 0 <= i < index && cs[i] == cs[index]
  }

  /** CVC4Solver.quickUnsatCheck: the scan for an earlier copy of the
      target. */
  method QuickUnsatCheck(cs: seq<Constraint>, index: int, ty: ConstraintType) returns (r: bool)
    requires 0 <= index < |cs|
    ensures r <==> ty == INT && cs[index].StrPred? && exists i :: 0 <= i < index && cs[i] == cs[index]
  {
    if ty == INT {
      var last := cs[index];
      if last.StrPred? {
        for i := 0 to index
          invariant forall j :: 0 <= j < i ==> cs[j] != last
        {
          if cs[i] == last {
            return true;
          }
        }
      }
    }
    return false;
  }

  // ---- the formula ------------------------------------------------------

  /** Lines written so far and the names they added to the free-variable
      set, in order. */
  datatype Block = Block(lines: seq<string>, vars: seq<string>)

  /** What writeFormula leaves behind: the FALSE shortcut, a written formula
      (allTrue is the TRUE answer), or the exception print raised. */
  datatype Outcome =
    | QuickFalse
    | Written(lines: seq<string>, freeVars: seq<string>, allTrue: bool)
    | Crash(reason: string)

  /** The i-th prefix constraint with the partial solution substituted. */
  function Substituted(cs: seq<Constraint>, i: nat, soln: map<string, int>, co: Collaborators): Constraint
    requires i < |cs|
  {
    co.substitute(cs[i], soln)
  }

  /** The negation of the target with the partial solution substituted. */
  function Target(cs: seq<Constraint>, index: nat, soln: map<string, int>, co: Collaborators): Constraint
    requires index < |cs|
  {
    co.substitute(co.negate(cs[index]), soln)
  }

  /** The `ASSERT <constraint>;` lines for the first n constraints. */
  function AssertBlock(cs: seq<Constraint>, n: nat, ty: ConstraintType, soln: map<string, int>,
                       co: Collaborators): Result<Block>
    requires n <= |cs|
  {
    if n == 0 then Ok(Block([], []))
    else
      match AssertBlock(cs, n - 1, ty, soln, co)
      case Err(e) => Err(e)
      case Ok(b) =>
        match Render(Substituted(cs, n - 1, soln, co), ty, soln, co, LoweringDepth)
        case Err(e) => Err(e)
        case Ok(rd) => Ok(Block(b.lines + ["ASSERT " + rd.text + ";"], b.vars + rd.vars))
  }

  /** The exclusion line, present only when extra is not null. */
  function ExtraLines(extra: Option<string>): seq<string> {
    if extra.Some? then ["ASSERT " + extra.value + ";"] else []
  }

  /** Every substituted prefix constraint is the True sentinel. */
  predicate AllTrue(cs: seq<Constraint>, n: nat, soln: map<string, int>, co: Collaborators)
    requires n <= |cs|
  {
    forall i :: 0 <= i < n ==> Substituted(cs, i, soln, co) == True
  }

  /** What writeFormula(extra, type, soln) produces for the query at index. */
  function FormulaOf(cs: seq<Constraint>, index: nat, extra: Option<string>, ty: ConstraintType,
                     soln: map<string, int>, co: Collaborators): Outcome
    requires index < |cs|
  {
    if QuickUnsat(cs, index, ty) then QuickFalse
    else
      match AssertBlock(cs, index, ty, soln, co)
      case Err(e) => Crash(e)
      case Ok(b) =>
        match Render(Target(cs, index, soln, co), ty, soln, co, LoweringDepth)
        case Err(e) => Crash(e)
        case Ok(t) =>
          Written(b.lines + ExtraLines(extra) + ["CHECKSAT " + t.text + ";", "COUNTERMODEL;"],
                  AddAll([], b.vars + t.vars),
                  AllTrue(cs, index, soln, co) && Target(cs, index, soln, co) == True)
  }

  /** The ASSERT block built from renderings already made, one per prefix
      constraint; the first failed rendering decides the error. */
  function Lines(rs: seq<Result<Rendering>>): Result<Block> {
    if |rs| == 0 then Ok(Block([], []))
    else
      match Lines(rs[..|rs| - 1])
      case Err(e) => Err(e)
      case Ok(b) =>
        match rs[|rs| - 1]
        case Err(e) => Err(e)
        case Ok(rd) => Ok(Block(b.lines + ["ASSERT " + rd.text + ";"], b.vars + rd.vars))
  }

  /** rs holds the renderings of the first |rs| substituted constraints. */
  ghost predicate RenderedFrom(rs: seq<Result<Rendering>>, cs: seq<Constraint>, ty: ConstraintType,
                               soln: map<string, int>, co: Collaborators)
  {
    |rs| <= |cs| &&
    forall j {:trigger Substituted(cs, j, soln, co)} :: 0 <= j < |rs| ==>
      rs[j] == Render(Substituted(cs, j, soln, co), ty, soln, co, LoweringDepth)
  }

  /** The block of the first n constraints is the block of their
      renderings. */
  lemma {:induction false} LinesAreAssertBlock(rs: seq<Result<Rendering>>, cs: seq<Constraint>, ty: ConstraintType,
                                               soln: map<string, int>, co: Collaborators)
    requires RenderedFrom(rs, cs, ty, soln, co)
    ensures AssertBlock(cs, |rs|, ty, soln, co) == Lines(rs)
  {
    if |rs| > 0 {
      var front := rs[..|rs| - 1];
      assert RenderedFrom(front, cs, ty, soln, co) by {
        forall j | 0 <= j < |front|
          ensures front[j] == Render(Substituted(cs, j, soln, co), ty, soln, co, LoweringDepth)
        {
          assert front[j] == rs[j];
        }
      }
      LinesAreAssertBlock(front, cs, ty, soln, co);
      assert rs[|rs| - 1] == Render(Substituted(cs, |rs| - 1, soln, co), ty, soln, co, LoweringDepth);
    }
  }

  /** The prefix loop of writeFormula: one print call per constraint,
      threading one free-variable set through all of them; it stops at the
      first constraint print rejects. The renderings it went through are
      returned beside the result. */
  method WriteAsserts(cs: seq<Constraint>, n: nat, ty: ConstraintType, soln: map<string, int>,
                      co: Collaborators)
    returns (r: Result<(seq<string>, seq<string>, bool)>, ghost rs: seq<Result<Rendering>>, ghost vars: seq<string>)
    requires n <= |cs|
    ensures |rs| <= n && RenderedFrom(rs, cs, ty, soln, co)
    ensures r.Err? ==> Lines(rs) == Err(r.reason)
    ensures r.Ok? ==> |rs| == n && Lines(rs) == Ok(Block(r.value.0, vars))
                      && r.value.1 == AddAll([], vars) && (r.value.2 <==> AllTrue(cs, n, soln, co))
  {
    var allTrue := true;
    var lines: seq<string> := [];
    var fv: seq<string> := [];
    vars := [];
    rs := [];
    for i := 0 to n
      invariant |rs| == i && RenderedFrom(rs, cs, ty, soln, co)
      invariant Lines(rs) == Ok(Block(lines, vars))
      invariant fv == AddAll([], vars)
      invariant allTrue <==> AllTrue(cs, i, soln, co)
    {
      var step, line, more := AppendAssert(cs, i, ty, soln, co, rs, lines, fv, allTrue, vars);
      rs := rs + [line];
      if step.Err? {
        return Err(step.reason), rs, vars;
      }
      lines, fv, allTrue := step.value.0, step.value.1, step.value.2;
      vars := more;
    }
    return Ok((lines, fv, allTrue)), rs, vars;
  }

  /** One pass of the prefix loop: substitute, note whether the result is
      the True sentinel, and print it after `ASSERT `. */
  method AppendAssert(cs: seq<Constraint>, i: nat, ty: ConstraintType, soln: map<string, int>, co: Collaborators,
                      ghost rs: seq<Result<Rendering>>, lines: seq<string>, fv: seq<string>, allTrue: bool,
                      ghost vars: seq<string>)
    returns (r: Result<(seq<string>, seq<string>, bool)>, ghost line: Result<Rendering>, ghost more: seq<string>)
    requires i < |cs| && |rs| == i && RenderedFrom(rs, cs, ty, soln, co)
    requires Lines(rs) == Ok(Block(lines, vars))
    requires fv == AddAll([], vars) && (allTrue <==> AllTrue(cs, i, soln, co))
    ensures RenderedFrom(rs + [line], cs, ty, soln, co)
    ensures r.Err? ==> Lines(rs + [line]) == Err(r.reason)
    ensures r.Ok? ==> Lines(rs + [line]) == Ok(Block(r.value.0, more))
                      && r.value.1 == AddAll([], more) && (r.value.2 <==> AllTrue(cs, i + 1, soln, co))
  {
    var tmp := co.substitute(cs[i], soln);
    var e := Print(tmp, ty, soln, co, LoweringDepth, "ASSERT ", fv);
    line := Render(tmp, ty, soln, co, LoweringDepth);
    AllTrueStep(cs, i, soln, co);
    var grown := rs + [line];
    assert grown[..|grown| - 1] == rs;
    assert RenderedFrom(grown, cs, ty, soln, co) by {
      forall j | 0 <= j < |grown|
        ensures grown[j] == Render(Substituted(cs, j, soln, co), ty, soln, co, LoweringDepth)
      {
        if j < i {
          assert grown[j] == rs[j];
        }
      }
    }
    if e.Err? {
      return Err(e.reason), line, vars;
    }
    AddAllAppend([], vars, line.value.vars);
    r := Ok((lines + [e.value.out + ";"], e.value.freeVars, allTrue && tmp == True));
    more := vars + line.value.vars;
  }

  /** CVC4Solver.writeFormula: the quick-UNSAT shortcut, the prefix, the
      exclusion line, then the negated target and COUNTERMODEL. */
  method WriteFormula(cs: seq<Constraint>, index: nat, extra: Option<string>, ty: ConstraintType,
                      soln: map<string, int>, co: Collaborators) returns (r: Outcome)
    requires index < |cs|
    ensures r == FormulaOf(cs, index, extra, ty, soln, co)
  {
    var quick := QuickUnsatCheck(cs, index, ty);
    if quick {
      return QuickFalse;
    }
    var asserts, rs, vars := WriteAsserts(cs, index, ty, soln, co);
    LinesAreAssertBlock(rs, cs, ty, soln, co);
    if asserts.Err? {
      AssertBlockErrorPropagates(cs, |rs|, index, ty, soln, co);
      return Crash(asserts.reason);
    }
    var (lines, fv, allTrue) := asserts.value;
    lines := lines + ExtraLines(extra);
    var target := co.substitute(co.negate(cs[index]), soln);
    if target != True {
      allTrue := false;
    }
    var e := Print(target, ty, soln, co, LoweringDepth, "CHECKSAT ", fv);
    if e.Err? {
      return Crash(e.reason);
    }
    AddAllAppend([], vars, Render(target, ty, soln, co, LoweringDepth).value.vars);
    lines := lines + [e.value.out + ";", "COUNTERMODEL;"];
    r := Written(lines, e.value.freeVars, allTrue);
  }

  lemma AllTrueStep(cs: seq<Constraint>, i: nat, soln: map<string, int>, co: Collaborators)
    requires i < |cs|
    ensures AllTrue(cs, i + 1, soln, co) <==> AllTrue(cs, i, soln, co) && Substituted(cs, i, soln, co) == True
  {
  }

  /** Once a prefix line fails to print, the whole block fails the same way. */
  lemma {:induction false} AssertBlockErrorPropagates(cs: seq<Constraint>, n: nat, m: nat, ty: ConstraintType,
                                                      soln: map<string, int>, co: Collaborators)
    requires n <= m <= |cs| && AssertBlock(cs, n, ty, soln, co).Err?
    ensures AssertBlock(cs, m, ty, soln, co) == AssertBlock(cs, n, ty, soln, co)
    decreases m - n
  {
    if n < m {
      AssertBlockErrorPropagates(cs, n, m - 1, ty, soln, co);
    }
  }

  // ---- properties -------------------------------------------------------

  /** line is the assertion print writes for the i-th prefix constraint. */
  predicate AssertLine(cs: seq<Constraint>, i: nat, line: string, ty: ConstraintType,
                       soln: map<string, int>, co: Collaborators)
    requires i < |cs|
  {
    var rd := Render(Substituted(cs, i, soln, co), ty, soln, co, LoweringDepth);
    rd.Ok? && line == "ASSERT " + rd.value.text + ";"
  }

  /** The renderings of the first n substituted constraints. */
  lemma Renderings(cs: seq<Constraint>, n: nat, ty: ConstraintType, soln: map<string, int>, co: Collaborators)
    returns (rs: seq<Result<Rendering>>)
    requires n <= |cs|
    ensures |rs| == n && RenderedFrom(rs, cs, ty, soln, co)
  {
    rs := seq(n, j requires 0 <= j < n => Render(Substituted(cs, j, soln, co), ty, soln, co, LoweringDepth));
  }

  /** A block built from renderings has one line per rendering, in order. */
  lemma {:induction false} LinesShape(rs: seq<Result<Rendering>>)
    requires Lines(rs).Ok?
    ensures |Lines(rs).value.lines| == |rs|
    ensures forall i :: 0 <= i < |rs| ==>
              rs[i].Ok? && Lines(rs).value.lines[i] == "ASSERT " + rs[i].value.text + ";"
    ensures forall i, v :: 0 <= i < |rs| && v in rs[i].value.vars ==> v in Lines(rs).value.vars
  {
    if |rs| > 0 {
      var front := rs[..|rs| - 1];
      LinesShape(front);
      var b := Lines(front).value;
      var out := Lines(rs).value;
      forall i | 0 <= i < |rs| - 1
        ensures rs[i].Ok? && out.lines[i] == "ASSERT " + rs[i].value.text + ";"
        ensures forall v :: v in rs[i].value.vars ==> v in out.vars
      {
        assert rs[i] == front[i];
        assert out.lines[i] == b.lines[i];
      }
    }
  }

  /** The block holds one `ASSERT <rendering>;` line per prefix constraint,
      in path order. */
  lemma AssertBlockLines(cs: seq<Constraint>, n: nat, ty: ConstraintType,
                         soln: map<string, int>, co: Collaborators)
    requires n <= |cs| && AssertBlock(cs, n, ty, soln, co).Ok?
    ensures |AssertBlock(cs, n, ty, soln, co).value.lines| == n
    ensures forall i :: 0 <= i < n ==> AssertLine(cs, i, AssertBlock(cs, n, ty, soln, co).value.lines[i], ty, soln, co)
  {
    var rs := Renderings(cs, n, ty, soln, co);
    LinesAreAssertBlock(rs, cs, ty, soln, co);
    LinesShape(rs);
    var lines := Lines(rs).value.lines;
    forall i | 0 <= i < n
      ensures AssertLine(cs, i, lines[i], ty, soln, co)
    {
      assert rs[i] == Render(Substituted(cs, i, soln, co), ty, soln, co, LoweringDepth);
    }
  }

  /** The names the block adds cover the variables of every integer
      relation it asserts. */
  lemma AssertBlockCoversIntVars(cs: seq<Constraint>, n: nat, ty: ConstraintType,
                                 soln: map<string, int>, co: Collaborators)
    requires n <= |cs| && AssertBlock(cs, n, ty, soln, co).Ok?
    ensures forall i, v :: 0 <= i < n && v in IntVars(Substituted(cs, i, soln, co)) ==>
              v in AssertBlock(cs, n, ty, soln, co).value.vars
  {
    var rs := Renderings(cs, n, ty, soln, co);
    LinesAreAssertBlock(rs, cs, ty, soln, co);
    LinesShape(rs);
    forall i, v | 0 <= i < n && v in IntVars(Substituted(cs, i, soln, co))
      ensures v in Lines(rs).value.vars
    {
      assert rs[i] == Render(Substituted(cs, i, soln, co), ty, soln, co, LoweringDepth);
      RenderCoversIntVars(Substituted(cs, i, soln, co), ty, soln, co, LoweringDepth);
    }
  }

  /** The layout of a written formula: exactly index prefix assertions, the
      exclusion assertion only when extra is given, the CHECKSAT line with
      the negated target, COUNTERMODEL last; the set holds each name once,
      and holds every variable of every integer relation asserted or
      checked. */
  lemma FormulaLayout(cs: seq<Constraint>, index: nat, extra: Option<string>, ty: ConstraintType,
                      soln: map<string, int>, co: Collaborators)
    requires index < |cs| && FormulaOf(cs, index, extra, ty, soln, co).Written?
    ensures var f := FormulaOf(cs, index, extra, ty, soln, co);
      && |f.lines| == index + (if extra.Some? then 1 else 0) + 2
      && (forall i :: 0 <= i < index ==> AssertLine(cs, i, f.lines[i], ty, soln, co))
      && (extra.Some? ==> f.lines[index] == "ASSERT " + extra.value + ";")
      && f.lines[|f.lines| - 2] == "CHECKSAT " + Render(Target(cs, index, soln, co), ty, soln, co, LoweringDepth).value.text + ";"
      && f.lines[|f.lines| - 1] == "COUNTERMODEL;"
      && NoDuplicates(f.freeVars)
      && (forall i, v :: 0 <= i < index && v in IntVars(Substituted(cs, i, soln, co)) ==> v in f.freeVars)
      && (forall v :: v in IntVars(Target(cs, index, soln, co)) ==> v in f.freeVars)
  {
    var b := AssertBlock(cs, index, ty, soln, co).value;
    var t := Render(Target(cs, index, soln, co), ty, soln, co, LoweringDepth).value;
    AssertBlockLines(cs, index, ty, soln, co);
    AssertBlockCoversIntVars(cs, index, ty, soln, co);
    RenderCoversIntVars(Target(cs, index, soln, co), ty, soln, co, LoweringDepth);
    AddAllSpec([], b.vars + t.vars);
    assert NoDuplicates([]);
  }

  /** The TRUE answer: when every substituted constraint is the True
      sentinel, each assertion and the check read ` TRUE ` and no variable is
      declared. */
  lemma AllTrueFormula(cs: seq<Constraint>, index: nat, extra: Option<string>, ty: ConstraintType,
                       soln: map<string, int>, co: Collaborators)
    requires index < |cs| && !QuickUnsat(cs, index, ty)
    requires AllTrue(cs, index, soln, co) && Target(cs, index, soln, co) == True
    ensures FormulaOf(cs, index, extra, ty, soln, co)
         == Written(seq(index, i => "ASSERT  TRUE ;") + ExtraLines(extra) + ["CHECKSAT  TRUE ;", "COUNTERMODEL;"], [], true)
  {
    AllTrueBlock(cs, index, ty, soln, co);
    assert Render(True, ty, soln, co, LoweringDepth) == Ok(Rendering(" TRUE ", []));
    assert "CHECKSAT " + " TRUE " + ";" == "CHECKSAT  TRUE ;";
    assert AddAll([], [] + []) == [];
  }

  lemma {:induction false} AllTrueBlock(cs: seq<Constraint>, n: nat, ty: ConstraintType,
                                        soln: map<string, int>, co: Collaborators)
    requires n <= |cs| && AllTrue(cs, n, soln, co)
    ensures AssertBlock(cs, n, ty, soln, co) == Ok(Block(seq(n, i => "ASSERT  TRUE ;"), []))
  {
    if n > 0 {
      assert Substituted(cs, n - 1, soln, co) == True;
      AllTrueBlock(cs, n - 1, ty, soln, co);
      assert Render(True, ty, soln, co, LoweringDepth) == Ok(Rendering(" TRUE ", []));
      assert "ASSERT " + " TRUE " + ";" == "ASSERT  TRUE ;";
      var none: seq<string> := [];
      assert none + none == none;
      assert AssertBlock(cs, n, ty, soln, co)
          == Ok(Block(seq(n - 1, i => "ASSERT  TRUE ;") + ["ASSERT  TRUE ;"], none + none));
      assert seq(n - 1, i => "ASSERT  TRUE ;") + ["ASSERT  TRUE ;"] == seq(n, i => "ASSERT  TRUE ;");
    } else {
      assert seq(n, i => "ASSERT  TRUE ;") == [];
    }
  }

  /** Without string predicates and unknown classes in the substituted
      constraints, writeFormula never raises: it either takes the shortcut
      or writes the file. */
  lemma PlainFormulaWritten(cs: seq<Constraint>, index: nat, extra: Option<string>, ty: ConstraintType,
                            soln: map<string, int>, co: Collaborators)
    requires index < |cs|
    requires forall i :: 0 <= i < index ==>
               Plain(Substituted(cs, i, soln, co)) && !HasUnsupported(Substituted(cs, i, soln, co))
    requires Plain(Target(cs, index, soln, co)) && !HasUnsupported(Target(cs, index, soln, co))
    ensures FormulaOf(cs, index, extra, ty, soln, co).Written? <==> !QuickUnsat(cs, index, ty)
  {
    PlainBlockOk(cs, index, ty, soln, co);
    PlainRendersIffSupported(Target(cs, index, soln, co), ty, soln, co, LoweringDepth);
  }

  lemma {:induction false} PlainBlockOk(cs: seq<Constraint>, n: nat, ty: ConstraintType,
                                        soln: map<string, int>, co: Collaborators)
    requires n <= |cs|
    requires forall i :: 0 <= i < n ==>
               Plain(Substituted(cs, i, soln, co)) && !HasUnsupported(Substituted(cs, i, soln, co))
    ensures AssertBlock(cs, n, ty, soln, co).Ok?
  {
    if n > 0 {
      PlainBlockOk(cs, n - 1, ty, soln, co);
      PlainRendersIffSupported(Substituted(cs, n - 1, soln, co), ty, soln, co, LoweringDepth);
    }
  }
}

/** CVC4Solver.print: renders a constraint as CVC-language text and collects
    the variables it mentions into an insertion-ordered set (a
    LinkedHashSet in the source). Render is the specification; Print is the
    recursive, appending procedure the source runs, proved to agree with it. */
module Printing {
  import opened Wrappers
  import opened JavaText
  import opened Constraints

  /** How many string-predicate lowerings one print call follows. A string
      predicate met inside a lowered formula is reported as an error. */
  const LoweringDepth: nat := 1

  /** The text print writes for one constraint and the names it adds to the
      free-variable set, in the order it adds them. */
  datatype Rendering = Rendering(text: string, vars: seq<string>)

  /** The output stream and the free-variable set after a print call. */
  datatype Emitted = Emitted(out: string, freeVars: seq<string>)

  // ---- the free-variable set (LinkedHashSet<String>) --------------------

  predicate NoDuplicates(s: seq<string>) {
    forall i, j :: 0 <= i < j < |s| ==> s[i] != s[j]
  }

  /** LinkedHashSet.add: appends a name not yet present. */
  function Insert(fv: seq<string>, v: string): seq<string> {
    if v in fv then fv else fv + [v]
  }

  /** Adds the names in order. */
  function AddAll(fv: seq<string>, vs: seq<string>): seq<string>
    decreases |vs|
  {
    if |vs| == 0 then fv else Insert(AddAll(fv, vs[..|vs| - 1]), vs[|vs| - 1])
  }

  /** The set keeps what it had, in place, gains exactly the added names, and
      never holds a name twice. */
  lemma {:induction false} AddAllSpec(fv: seq<string>, vs: seq<string>)
    ensures forall v :: v in AddAll(fv, vs) <==> v in fv || v in vs
    ensures |fv| <= |AddAll(fv, vs)| && AddAll(fv, vs)[..|fv|] == fv
    ensures NoDuplicates(fv) ==> NoDuplicates(AddAll(fv, vs))
    decreases |vs|
  {
    if |vs| > 0 {
      var front := vs[..|vs| - 1];
      AddAllSpec(fv, front);
      assert forall v :: v in vs <==> v in front || v == vs[|vs| - 1] by {
        assert vs == front + [vs[|vs| - 1]];
      }
    }
  }

  lemma {:induction false} AddAllAppend(fv: seq<string>, a: seq<string>, b: seq<string>)
    ensures AddAll(fv, a + b) == AddAll(AddAll(fv, a), b)
    decreases |b|
  {
    if |b| == 0 {
      assert a + b == a;
    } else {
      AddAllAppend(fv, a, b[..|b| - 1]);
      assert (a + b)[..|a + b| - 1] == a + b[..|b| - 1];
    }
  }

  // ---- the text ---------------------------------------------------------

  /** The operator token print writes before the trailing `0`. */
  function OpToken(op: CompareOp): string {
    match op
    case EQ => " = "
    case NE => " /= "
    case LE => " <= "
    case LT => " < "
    case GE => " >= "
    case GT => " > "
  }

  /** The solver-side name of symbolic variable id. */
  function VarName(id: int): string {
    "x" + IntToString(id)
  }

  function TermText(t: Term): string {
    VarName(t.id) + "*(" + IntToString(t.coeff) + ")"
  }

  function TermTexts(terms: seq<Term>): (r: seq<string>)
    ensures |r| == |terms|
  {
    seq(|terms|, i requires 0 <= i < |terms| => TermText(terms[i]))
  }

  function TermVars(terms: seq<Term>): (r: seq<string>)
    ensures |r| == |terms|
  {
    seq(|terms|, i requires 0 <= i < |terms| => VarName(terms[i].id))
  }

  /** A linear relation: its terms joined by ` + `, the constant only when it
      is not zero, then the operator and `0`. */
  function LinearText(terms: seq<Term>, constant: int, op: CompareOp): string {
    Join(TermTexts(terms), " + ")
      + (if constant != 0 then "+(" + IntToString(constant) + ")" else "")
      + OpToken(op) + "0"
  }

  function OperandVars(o: Operand): seq<string> {
    if o.sym.Some? then [o.sym.value] else []
  }

  /** What print writes for c, or the error it raises. fuel bounds the
      lowerings of string predicates followed. */
  function Render(c: Constraint, ty: ConstraintType, soln: map<string, int>,
                  co: Collaborators, fuel: nat): Result<Rendering>
    decreases fuel, c
  {
    match c
    case Linear(terms, k, op) =>
      Ok(Rendering(LinearText(terms, k, op), TermVars(terms)))
    case IntCompare(l, r, op) =>
      Ok(Rendering("(" + l.text + ")-(" + r.text + ")" + OpToken(op) + "0",
                   OperandVars(l) + OperandVars(r)))
    case Or(cs) =>
      if |cs| == 0 then Ok(Rendering(" TRUE ", [])) else RenderList(cs, " OR ", ty, soln, co, fuel)
    case And(cs) =>
      if |cs| == 0 then Ok(Rendering(" FALSE ", [])) else RenderList(cs, " AND ", ty, soln, co, fuel)
    case Not(x) =>
      (match Render(x, ty, soln, co, fuel)
       case Ok(rd) => Ok(Rendering(" NOT (" + rd.text + ")", rd.vars))
       case Err(e) => Err(e))
    case True => Ok(Rendering(" TRUE ", []))
    case False => Ok(Rendering(" FALSE ", []))
    case StrPred(p) =>
      if fuel == 0 then Err("string predicate inside a lowered formula")
      else
        var lw := co.lower(p, ty, soln);
        (match Render(lw.formula, ty, soln, co, fuel - 1)
         case Ok(rd) => Ok(Rendering(rd.text, lw.declared + rd.vars))
         case Err(e) => Err(e))
    case Unsupported(kind) => Err("Unimplemented constraint type " + kind)
  }

  /** The children of an Or or And, each in parentheses, joined by sep in
      list order; the first child that fails decides the error. */
  function RenderList(cs: seq<Constraint>, sep: string, ty: ConstraintType,
                      soln: map<string, int>, co: Collaborators, fuel: nat): Result<Rendering>
    decreases fuel, cs
  {
    if |cs| == 0 then Ok(Rendering("", []))
    else
      match RenderList(cs[..|cs| - 1], sep, ty, soln, co, fuel)
      case Err(e) => Err(e)
      case Ok(front) =>
        match Render(cs[|cs| - 1], ty, soln, co, fuel)
        case Err(e) => Err(e)
        case Ok(last) =>
          Ok(Rendering(front.text + (if |cs| > 1 then sep else "") + "(" + last.text + ")",
                       front.vars + last.vars))
  }

  /** The stream and set after appending a rendering, or the error. */
  function Emit(r: Result<Rendering>, out: string, freeVars: seq<string>): Result<Emitted> {
    match r
    case Ok(rd) => Ok(Emitted(out + rd.text, AddAll(freeVars, rd.vars)))
    case Err(e) => Err(e)
  }

  // ---- the procedure ----------------------------------------------------

  /** CVC4Solver.print: appends the rendering of c to out and adds the
      variables it meets to freeVars as it goes. */
  method Print(c: Constraint, ty: ConstraintType, soln: map<string, int>, co: Collaborators,
               fuel: nat, out: string, freeVars: seq<string>) returns (r: Result<Emitted>)
    ensures r == Emit(Render(c, ty, soln, co, fuel), out, freeVars)
    decreases fuel, c
  {
    match c
    case Linear(terms, k, op) =>
      var e := PrintLinear(terms, k, op, out, freeVars);
      r := Ok(e);
    case IntCompare(left, right, op) =>
      var fv := freeVars;
      if left.sym.Some? {
        fv := Insert(fv, left.sym.value);
      }
      if right.sym.Some? {
        fv := Insert(fv, right.sym.value);
      }
      AddAllAppend(freeVars, OperandVars(left), OperandVars(right));
      var text := "(" + left.text + ")-(" + right.text + ")" + OpToken(op) + "0";
      r := Ok(Emitted(out + text, fv));
    case Or(cs) =>
      if |cs| == 0 {
        r := Ok(Emitted(out + " TRUE ", freeVars));
      } else {
        r := PrintList(cs, " OR ", ty, soln, co, fuel, out, freeVars);
      }
    case And(cs) =>
      if |cs| == 0 {
        r := Ok(Emitted(out + " FALSE ", freeVars));
      } else {
        r := PrintList(cs, " AND ", ty, soln, co, fuel, out, freeVars);
      }
    case Not(x) =>
      var inner := Print(x, ty, soln, co, fuel, out + " NOT (", freeVars);
      if inner.Ok? {
        ghost var rd := Render(x, ty, soln, co, fuel).value;
        assert out + " NOT (" + rd.text + ")" == out + (" NOT (" + rd.text + ")");
        r := Ok(Emitted(inner.value.out + ")", inner.value.freeVars));
      } else {
        r := inner;
      }
    case True =>
      r := Ok(Emitted(out + " TRUE ", freeVars));
    case False =>
      r := Ok(Emitted(out + " FALSE ", freeVars));
    case StrPred(p) =>
      if fuel == 0 {
        r := Err("string predicate inside a lowered formula");
      } else {
        var lw := co.lower(p, ty, soln);
        r := Print(lw.formula, ty, soln, co, fuel - 1, out, AddAll(freeVars, lw.declared));
        AddAllAppend(freeVars, lw.declared, if r.Ok? then Render(lw.formula, ty, soln, co, fuel - 1).value.vars else []);
      }
    case Unsupported(kind) =>
      r := Err("Unimplemented constraint type " + kind);
  }

  /** The branch of print for a linear relation: the terms, then the
      constant when it is not zero, then the operator and `0`. */
  method PrintLinear(terms: seq<Term>, k: int, op: CompareOp, out: string, freeVars: seq<string>)
    returns (r: Emitted)
    ensures r == Emitted(out + LinearText(terms, k, op), AddAll(freeVars, TermVars(terms)))
  {
    var o, fv := PrintTerms(terms, out, freeVars);
    var constPart := if k != 0 then "+(" + IntToString(k) + ")" else "";
    var tail := OpToken(op) + "0";
    o := o + constPart;
    o := o + tail;
    Assoc(out, Join(TermTexts(terms), " + "), constPart);
    Assoc(out, Join(TermTexts(terms), " + ") + constPart, tail);
    r := Emitted(o, fv);
  }

  /** The loop over the terms of a linear relation: each term written after
      ` + ` (except the first), its variable added to the set first. */
  method PrintTerms(terms: seq<Term>, out: string, freeVars: seq<string>)
    returns (o: string, fv: seq<string>)
    ensures o == out + Join(TermTexts(terms), " + ")
    ensures fv == AddAll(freeVars, TermVars(terms))
  {
    o, fv := out, freeVars;
    ghost var texts, names := TermTexts(terms), TermVars(terms);
    assert texts[..0] == [] && names[..0] == [];
    assert out + "" == out;
    for i := 0 to |terms|
      invariant o == out + Join(texts[..i], " + ")
      invariant fv == AddAll(freeVars, names[..i])
    {
      JoinStep(out, texts, i, " + ", o);
      AddAllSnoc(freeVars, names, i);
      fv := Insert(fv, VarName(terms[i].id));
      ghost var before := o;
      if i > 0 {
        o := o + " + ";
      }
      o := o + TermText(terms[i]);
      assert o == before + (if i > 0 then " + " else "") + texts[i];
    }
    assert texts[..|terms|] == texts;
    assert names[..|terms|] == names;
  }

  lemma JoinStep(out: string, parts: seq<string>, i: nat, sep: string, o: string)
    requires i < |parts| && o == out + Join(parts[..i], sep)
    ensures o + (if i > 0 then sep else "") + parts[i] == out + Join(parts[..i + 1], sep)
  {
    assert parts[..i + 1][..i] == parts[..i];
    if i == 0 {
      assert Join(parts[..i], sep) == "";
    }
  }

  lemma AddAllSnoc(fv: seq<string>, names: seq<string>, i: nat)
    requires i < |names|
    ensures AddAll(fv, names[..i + 1]) == Insert(AddAll(fv, names[..i]), names[i])
  {
    assert names[..i + 1][..i] == names[..i];
  }

  /** The loop of print over the children of an Or or And. */
  method PrintList(cs: seq<Constraint>, sep: string, ty: ConstraintType, soln: map<string, int>,
                   co: Collaborators, fuel: nat, out: string, freeVars: seq<string>)
    returns (r: Result<Emitted>)
    ensures r == Emit(RenderList(cs, sep, ty, soln, co, fuel), out, freeVars)
    decreases fuel, cs
  {
    var o, fv := out, freeVars;
    ghost var sofar := Rendering("", []);
    assert cs[..0] == [];
    assert out + "" == out;
    for i := 0 to |cs|
      invariant RenderList(cs[..i], sep, ty, soln, co, fuel) == Ok(sofar)
      invariant o == out + sofar.text && fv == AddAll(freeVars, sofar.vars)
    {
      var mid := if i > 0 then sep else "";
      var child := Print(cs[i], ty, soln, co, fuel, o + mid + "(", fv);
      RenderListSnoc(cs, i, sep, ty, soln, co, fuel);
      if child.Err? {
        r := Err(child.reason);
        PrefixErrorPropagates(cs, i + 1, sep, ty, soln, co, fuel);
        return;
      }
      ghost var last := Render(cs[i], ty, soln, co, fuel).value;
      EmitSnoc(sofar, last, mid, out, freeVars, o, fv);
      o, fv := child.value.out + ")", child.value.freeVars;
      sofar := Rendering(sofar.text + mid + "(" + last.text + ")", sofar.vars + last.vars);
    }
    assert cs[..|cs|] == cs;
    r := Ok(Emitted(o, fv));
  }

  /** One step of the loop over children: the rendering of the first i + 1
      children in terms of that of the first i and of child i. */
  lemma RenderListSnoc(cs: seq<Constraint>, i: nat, sep: string, ty: ConstraintType, soln: map<string, int>,
                       co: Collaborators, fuel: nat)
    requires i < |cs|
    ensures RenderList(cs[..i + 1], sep, ty, soln, co, fuel)
         == match RenderList(cs[..i], sep, ty, soln, co, fuel)
            case Err(e) => Err(e)
            case Ok(front) =>
              match Render(cs[i], ty, soln, co, fuel)
              case Err(e) => Err(e)
              case Ok(last) =>
                Ok(Rendering(front.text + (if i > 0 then sep else "") + "(" + last.text + ")",
                             front.vars + last.vars))
  {
    assert cs[..i + 1][..i] == cs[..i];
    assert cs[..i + 1][i] == cs[i];
  }

  /** The same step, seen from the stream and the set. */
  lemma EmitSnoc(front: Rendering, last: Rendering, mid: string, out: string, freeVars: seq<string>,
                 o: string, fv: seq<string>)
    requires o == out + front.text && fv == AddAll(freeVars, front.vars)
    ensures o + mid + "(" + last.text + ")" == out + (front.text + mid + "(" + last.text + ")")
    ensures AddAll(fv, last.vars) == AddAll(freeVars, front.vars + last.vars)
  {
    AddAllAppend(freeVars, front.vars, last.vars);
  }

  /** Once a prefix of the children fails to render, so does every longer
      prefix, with the same error. */
  lemma {:induction false} PrefixErrorPropagates(cs: seq<Constraint>, n: nat, sep: string, ty: ConstraintType,
                                                 soln: map<string, int>, co: Collaborators, fuel: nat)
    requires n <= |cs| && RenderList(cs[..n], sep, ty, soln, co, fuel).Err?
    ensures RenderList(cs, sep, ty, soln, co, fuel) == RenderList(cs[..n], sep, ty, soln, co, fuel)
    decreases |cs| - n
  {
    if n < |cs| {
      assert cs[..n + 1][..n] == cs[..n];
      PrefixErrorPropagates(cs, n + 1, sep, ty, soln, co, fuel);
    } else {
      assert cs[..n] == cs;
    }
  }

  // Properties of the rendering.

  /** A constraint built only from the integer forms and the combinators: no
      string predicate anywhere below it. */
  predicate Plain(c: Constraint)
    decreases c
  {
    match c
    case Or(cs) => forall i :: 0 <= i < |cs| ==> Plain(cs[i])
    case And(cs) => forall i :: 0 <= i < |cs| ==> Plain(cs[i])
    case Not(x) => Plain(x)
    case StrPred(_) => false
    case _ => true
  }

  /** Some node reachable through the combinators is of a class print does
      not know. */
  predicate HasUnsupported(c: Constraint)
    decreases c
  {
    match c
    case Or(cs) => exists i :: 0 <= i < |cs| && HasUnsupported(cs[i])
    case And(cs) => exists i :: 0 <= i < |cs| && HasUnsupported(cs[i])
    case Not(x) => HasUnsupported(x)
    case Unsupported(_) => true
    case _ => false
  }

  /** The variables of the integer relations reachable through the
      combinators. */
  function IntVars(c: Constraint): set<string>
    decreases c
  {
    match c
    case Linear(ts, _, _) => set i | 0 <= i < |ts| :: VarName(ts[i].id)
    case IntCompare(l, r, _) => (set v | v in OperandVars(l)) + (set v | v in OperandVars(r))
    case Or(cs) => ListIntVars(cs)
    case And(cs) => ListIntVars(cs)
    case Not(x) => IntVars(x)
    case _ => {}
  }

  function ListIntVars(cs: seq<Constraint>): set<string>
    decreases cs
  {
    if |cs| == 0 then {} else ListIntVars(cs[..|cs| - 1]) + IntVars(cs[|cs| - 1])
  }

  /** Every variable x<id> of an integer relation that print writes is added
      to the free-variable set. */
  lemma {:induction false} RenderCoversIntVars(c: Constraint, ty: ConstraintType, soln: map<string, int>,
                                               co: Collaborators, fuel: nat)
    requires Render(c, ty, soln, co, fuel).Ok?
    ensures forall v :: v in IntVars(c) ==> v in Render(c, ty, soln, co, fuel).value.vars
    decreases fuel, c
  {
    match c
    case Linear(ts, _, _) =>
      forall v | v in IntVars(c)
        ensures v in TermVars(ts)
      {
        var i :| 0 <= i < |ts| && v == VarName(ts[i].id);
        assert TermVars(ts)[i] == v;
      }
    case Or(cs) =>
      if |cs| > 0 {
        ListCoversIntVars(cs, " OR ", ty, soln, co, fuel);
      }
    case And(cs) =>
      if |cs| > 0 {
        ListCoversIntVars(cs, " AND ", ty, soln, co, fuel);
      }
    case Not(x) =>
      RenderCoversIntVars(x, ty, soln, co, fuel);
    case _ =>
  }

  lemma {:induction false} ListCoversIntVars(cs: seq<Constraint>, sep: string, ty: ConstraintType,
                                             soln: map<string, int>, co: Collaborators, fuel: nat)
    requires RenderList(cs, sep, ty, soln, co, fuel).Ok?
    ensures forall v :: v in ListIntVars(cs) ==> v in RenderList(cs, sep, ty, soln, co, fuel).value.vars
    decreases fuel, cs
  {
    if |cs| > 0 {
      ListCoversIntVars(cs[..|cs| - 1], sep, ty, soln, co, fuel);
      RenderCoversIntVars(cs[|cs| - 1], ty, soln, co, fuel);
    }
  }

  /** The closed set of shapes: a constraint without string predicates
      renders exactly when no node of an unknown class is reachable; an
      unknown class raises the error. */
  lemma {:induction false} PlainRendersIffSupported(c: Constraint, ty: ConstraintType, soln: map<string, int>,
                                                    co: Collaborators, fuel: nat)
    requires Plain(c)
    ensures Render(c, ty, soln, co, fuel).Ok? <==> !HasUnsupported(c)
    decreases c
  {
    match c
    case Or(cs) =>
      if |cs| > 0 {
        ListRendersIffSupported(cs, " OR ", ty, soln, co, fuel);
      }
    case And(cs) =>
      if |cs| > 0 {
        ListRendersIffSupported(cs, " AND ", ty, soln, co, fuel);
      }
    case Not(x) =>
      PlainRendersIffSupported(x, ty, soln, co, fuel);
    case _ =>
  }

  lemma {:induction false} ListRendersIffSupported(cs: seq<Constraint>, sep: string, ty: ConstraintType,
                                                   soln: map<string, int>, co: Collaborators, fuel: nat)
    requires forall i :: 0 <= i < |cs| ==> Plain(cs[i])
    ensures RenderList(cs, sep, ty, soln, co, fuel).Ok? <==> !(exists i :: 0 <= i < |cs| && HasUnsupported(cs[i]))
    decreases cs
  {
    if |cs| > 0 {
      var front := cs[..|cs| - 1];
      assert forall i :: 0 <= i < |front| ==> front[i] == cs[i];
      ListRendersIffSupported(front, sep, ty, soln, co, fuel);
      PlainRendersIffSupported(cs[|cs| - 1], ty, soln, co, fuel);
      if exists i :: 0 <= i < |cs| && HasUnsupported(cs[i]) {
        var i :| 0 <= i < |cs| && HasUnsupported(cs[i]);
        if i < |front| {
          assert HasUnsupported(front[i]);
        }
      }
    }
  }

  /** Without string predicates, the text and the variables do not depend on
      the layer, the partial solution, the collaborators or the lowering
      depth: these matter to print only through getFormula. */
  lemma {:induction false} PlainIgnoresContext(c: Constraint,
                                               t1: ConstraintType, s1: map<string, int>, co1: Collaborators, f1: nat,
                                               t2: ConstraintType, s2: map<string, int>, co2: Collaborators, f2: nat)
    requires Plain(c)
    ensures Render(c, t1, s1, co1, f1) == Render(c, t2, s2, co2, f2)
    decreases c
  {
    match c
    case Or(cs) =>
      ListIgnoresContext(cs, " OR ", t1, s1, co1, f1, t2, s2, co2, f2);
    case And(cs) =>
      ListIgnoresContext(cs, " AND ", t1, s1, co1, f1, t2, s2, co2, f2);
    case Not(x) =>
      PlainIgnoresContext(x, t1, s1, co1, f1, t2, s2, co2, f2);
    case _ =>
  }

  lemma {:induction false} ListIgnoresContext(cs: seq<Constraint>, sep: string,
                                              t1: ConstraintType, s1: map<string, int>, co1: Collaborators, f1: nat,
                                              t2: ConstraintType, s2: map<string, int>, co2: Collaborators, f2: nat)
    requires forall i :: 0 <= i < |cs| ==> Plain(cs[i])
    ensures RenderList(cs, sep, t1, s1, co1, f1) == RenderList(cs, sep, t2, s2, co2, f2)
    decreases cs
  {
    if |cs| > 0 {
      var front := cs[..|cs| - 1];
      assert forall i :: 0 <= i < |front| ==> front[i] == cs[i];
      ListIgnoresContext(front, sep, t1, s1, co1, f1, t2, s2, co2, f2);
      PlainIgnoresContext(cs[|cs| - 1], t1, s1, co1, f1, t2, s2, co2, f2);
    }
  }

  /** x1 + x2 - 5 = 0 and its negation x1 + x2 - 5 /= 0: the same linear
      form, only the operator token differs. */
  lemma LinearExample(ty: ConstraintType, soln: map<string, int>, co: Collaborators, fuel: nat)
    ensures Render(Linear([Term(1, 1), Term(2, 1)], -5, EQ), ty, soln, co, fuel)
         == Ok(Rendering("x1*(1) + x2*(1)+(-5) = 0", ["x1", "x2"]))
    ensures Render(Linear([Term(1, 1), Term(2, 1)], -5, NE), ty, soln, co, fuel)
         == Ok(Rendering("x1*(1) + x2*(1)+(-5) /= 0", ["x1", "x2"]))
  {
    var ts := [Term(1, 1), Term(2, 1)];
    ExampleTerms();
    assert LinearText(ts, -5, EQ) == "x1*(1) + x2*(1)+(-5) = 0";
    assert LinearText(ts, -5, NE) == "x1*(1) + x2*(1)+(-5) /= 0";
  }

  /** The texts and variables of the terms x1 and x2. */
  lemma ExampleTerms()
    ensures TermTexts([Term(1, 1), Term(2, 1)]) == ["x1*(1)", "x2*(1)"]
    ensures Join(TermTexts([Term(1, 1), Term(2, 1)]), " + ") == "x1*(1) + x2*(1)"
    ensures TermVars([Term(1, 1), Term(2, 1)]) == ["x1", "x2"]
    ensures IntToString(-5) == "-5"
  {
    assert IntToString(1) == "1";
    assert IntToString(2) == "2";
    assert IntToString(-5) == "-5";
    var ts := [Term(1, 1), Term(2, 1)];
    assert VarName(1) == "x1" && VarName(2) == "x2";
    assert TermText(ts[0]) == "x1*(1)" && TermText(ts[1]) == "x2*(1)";
    assert TermTexts(ts) == ["x1*(1)", "x2*(1)"];
    assert Join(["x1*(1)", "x2*(1)"], " + ") == "x1*(1) + x2*(1)" by {
      assert ["x1*(1)", "x2*(1)"][..1] == ["x1*(1)"];
    }
  }
}

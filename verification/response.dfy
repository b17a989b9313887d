/** CVC4Solver.processInputs: reading the solver's answer. The first line
    decides sat, unsat or failure; on sat, every following line of five
    space-separated tokens `name : T = v;` binds name to v in the partial
    solution and adds `(name = v )` to the clause that excludes this
    solution next time. */
module Response {
  import opened Wrappers
  import opened JavaText

  /** Long.MIN_VALUE and Long.MAX_VALUE: Long.parseLong rejects anything
      outside. */
  const MinLong: int := -0x8000_0000_0000_0000
  const MaxLong: int := 0x7FFF_FFFF_FFFF_FFFF

  /** What processInputs returns, and what it does to the solution map:
      the negated solution (the solution as the map stands afterwards), null
      for unsat, or the halt or exception that ends the run. */
  datatype Parsed =
    | Sat(negated: string, soln: map<string, int>)
    | Unsat
    | Halt(reason: string)

  /** The clause accumulated so far (null before the first binding) and the
      solution map. */
  datatype Scan = Scan(clause: Option<string>, soln: map<string, int>)

  /** tokens[4] trimmed and cut before its first `;`; substring raises when
      there is none. */
  function ValueText(token: string): Result<string> {
    var t := Trim(token);
    var k := IndexOf(t, ';');
    if k < 0 then Err("value without ';'") else Ok(t[..k])
  }

  /** Long.parseLong. */
  function ParseValue(text: string): Result<int> {
    match ParseLong(text)
    case None => Err("malformed number")
    case Some(v) => if MinLong <= v <= MaxLong then Ok(v) else Err("number out of range")
  }

  /** `(name = v )`, one conjunct of the clause. */
  function Equation(name: string, v: string): string {
    "(" + name + " = " + v + " )"
  }

  function AddConjunct(acc: Option<string>, eq: string): string {
    if acc.Some? then acc.value + " AND " + eq else eq
  }

  /** One line after the first. */
  function ScanLine(line: string, sc: Scan): Result<Scan> {
    var tokens := Split(line);
    if |tokens| != 5 then Ok(sc)
    else
      match ValueText(tokens[4])
      case Err(e) => Err(e)
      case Ok(v) =>
        match ParseValue(v)
        case Err(e) => Err(e)
        case Ok(n) => Ok(Scan(Some(AddConjunct(sc.clause, Equation(tokens[0], v))), sc.soln[tokens[0] := n]))
  }

  /** The lines after the first, in order. */
  function ScanModel(ls: seq<string>, soln: map<string, int>): Result<Scan>
    decreases |ls|
  {
    if |ls| == 0 then Ok(Scan(None, soln))
    else
      match ScanModel(ls[..|ls| - 1], soln)
      case Err(e) => Err(e)
      case Ok(sc) => ScanLine(ls[|ls| - 1], sc)
  }

  /** Java's string conversion of a possibly null clause. */
  function ClauseText(c: Option<string>): string {
    if c.Some? then c.value else "null"
  }

  /** The whole answer. A missing first line makes startsWith dereference
      null; a first line that is neither sat nor mentions unsat halts. */
  function ResponseOf(lines: seq<string>, soln: map<string, int>): Parsed {
    if |lines| == 0 then Halt("no answer")
    else if !StartsWith(lines[0], "sat") then
      if !Contains(lines[0], "unsat") then Halt("solver call failed") else Unsat
    else
      match ScanModel(lines[1..], soln)
      case Err(e) => Halt(e)
      case Ok(sc) => Sat("(NOT (" + ClauseText(sc.clause) + "))", sc.soln)
  }

  /** processInputs: the first line, then the model lines. */
  method ProcessInputs(lines: seq<string>, soln: map<string, int>) returns (r: Parsed)
    ensures r == ResponseOf(lines, soln)
  {
    if |lines| == 0 {
      return Halt("no answer");
    }
    var line := lines[0];
    if !StartsWith(line, "sat") {
      if !Contains(line, "unsat") {
        return Halt("solver call failed");
      }
      return Unsat;
    }
    var sc := ScanLines(lines[1..], soln);
    if sc.Err? {
      return Halt(sc.reason);
    }
    var text := if sc.value.clause.Some? then sc.value.clause.value else "null";
    r := Sat("(NOT (" + text + "))", sc.value.soln);
  }

  /** The loop of processInputs over the lines after the first, updating
      the clause and the map. */
  method ScanLines(rest: seq<string>, soln: map<string, int>) returns (r: Result<Scan>)
    ensures r == ScanModel(rest, soln)
  {
    var negated: Option<string> := None;
    var sol := soln;
    assert rest[..0] == [];
    for i := 0 to |rest|
      invariant ScanModel(rest[..i], soln) == Ok(Scan(negated, sol))
    {
      assert rest[..i + 1][..i] == rest[..i];
      assert ScanModel(rest[..i + 1], soln) == ScanLine(rest[i], Scan(negated, sol));
      var tokens := Split(rest[i]);
      if |tokens| == 5 {
        var tmp := Trim(tokens[4]);
        var k := IndexOf(tmp, ';');
        if k < 0 {
          ScanErrorPropagates(rest, i + 1, soln);
          return Err("value without ';'");
        }
        tmp := tmp[..k];
        var eq := "(" + tokens[0] + " = " + tmp + " )";
        if negated.Some? {
          negated := Some(negated.value + " AND " + eq);
        } else {
          negated := Some(eq);
        }
        var v := ParseLong(tmp);
        if v.None? {
          ScanErrorPropagates(rest, i + 1, soln);
          return Err("malformed number");
        }
        if !(MinLong <= v.value <= MaxLong) {
          ScanErrorPropagates(rest, i + 1, soln);
          return Err("number out of range");
        }
        sol := sol[tokens[0] := v.value];
      }
    }
    assert rest[..|rest|] == rest;
    r := Ok(Scan(negated, sol));
  }

  /** A line that raises ends the scan with its error. */
  lemma {:induction false} ScanErrorPropagates(ls: seq<string>, n: nat, soln: map<string, int>)
    requires n <= |ls| && ScanModel(ls[..n], soln).Err?
    ensures ScanModel(ls, soln) == ScanModel(ls[..n], soln)
    decreases |ls| - n
  {
    if n < |ls| {
      assert ls[..n + 1][..n] == ls[..n];
      ScanErrorPropagates(ls, n + 1, soln);
    } else {
      assert ls[..n] == ls;
    }
  }

  // ---- properties -------------------------------------------------------

  /** The map only grows: every key it had stays, and every new key is the
      name token of a five-token line. */
  lemma {:induction false} ScanModelKeys(ls: seq<string>, soln: map<string, int>)
    requires ScanModel(ls, soln).Ok?
    ensures soln.Keys <= ScanModel(ls, soln).value.soln.Keys
    ensures forall k :: k in ScanModel(ls, soln).value.soln && k !in soln ==>
              exists i :: 0 <= i < |ls| && |Split(ls[i])| == 5 && Split(ls[i])[0] == k
    decreases |ls|
  {
    if |ls| > 0 {
      var front := ls[..|ls| - 1];
      ScanModelKeys(front, soln);
      forall k | k in ScanModel(ls, soln).value.soln && k !in soln
        ensures exists i :: 0 <= i < |ls| && |Split(ls[i])| == 5 && Split(ls[i])[0] == k
      {
        if k in ScanModel(front, soln).value.soln {
          var i :| 0 <= i < |front| && |Split(front[i])| == 5 && Split(front[i])[0] == k;
          assert ls[i] == front[i];
        } else {
          assert Split(ls[|ls| - 1])[0] == k;
        }
      }
    }
  }

  /** A binding the solver reports: a variable name and its value. */
  datatype Binding = Binding(name: string, value: int)

  /** How the solver prints a binding in its counter-model. */
  function ModelLine(b: Binding): string {
    b.name + " : INT = " + IntToString(b.value) + ";"
  }

  function ModelLines(bs: seq<Binding>): (r: seq<string>)
    ensures |r| == |bs|
  {
    seq(|bs|, i requires 0 <= i < |bs| => ModelLine(bs[i]))
  }

  /** The map after the bindings, later bindings of a name winning. */
  function Bind(soln: map<string, int>, bs: seq<Binding>): map<string, int>
    decreases |bs|
  {
    if |bs| == 0 then soln else Bind(soln, bs[..|bs| - 1])[bs[|bs| - 1].name := bs[|bs| - 1].value]
  }

  /** The clause excluding the bindings. */
  function Equations(bs: seq<Binding>): (r: seq<string>)
    ensures |r| == |bs|
  {
    seq(|bs|, i requires 0 <= i < |bs| => Equation(bs[i].name, IntToString(bs[i].value)))
  }

  predicate WellFormed(bs: seq<Binding>) {
    forall i :: 0 <= i < |bs| ==> ' ' !in bs[i].name && MinLong <= bs[i].value <= MaxLong
  }

  /** The tokens of a model line: the name first, the value and its `;`
      last. */
  lemma ModelLineTokens(b: Binding)
    requires ' ' !in b.name
    ensures var f := Split(ModelLine(b));
      |f| == 5 && f[0] == b.name && f[4] == IntToString(b.value) + ";"
  {
    var v := IntToString(b.value) + ";";
    IntToStringShape(b.value);
    assert ' ' !in v;
    ModelLineShape(b.name, IntToString(b.value));
    SplitModelLine(b.name, "INT", v);
  }

  lemma ModelLineShape(n: string, v: string)
    ensures n + " : INT = " + v + ";" == n + " : " + "INT" + " = " + (v + ";")
  {
  }

  /** The value token of a model line reads back as the printed number. */
  lemma ValueTextOfNumber(n: int)
    ensures ValueText(IntToString(n) + ";") == Ok(IntToString(n))
  {
    var v := IntToString(n);
    IntToStringShape(n);
    var t := v + ";";
    TrimNoOp(t);
    assert t[..|v|] == v;
    assert t[|v|] == ';';
  }

  /** One model line is read back as its binding. */
  lemma ModelLineReadsBack(b: Binding, sc: Scan)
    requires ' ' !in b.name && MinLong <= b.value <= MaxLong
    ensures ScanLine(ModelLine(b), sc)
         == Ok(Scan(Some(AddConjunct(sc.clause, Equation(b.name, IntToString(b.value)))), sc.soln[b.name := b.value]))
  {
    ModelLineTokens(b);
    ValueTextOfNumber(b.value);
    ParseLongIntToString(b.value);
  }

  /** The scan of well-formed model lines binds every name and builds the
      conjunction of their equations in order. */
  lemma {:induction false} ScanModelLines(bs: seq<Binding>, soln: map<string, int>)
    requires WellFormed(bs)
    ensures ScanModel(ModelLines(bs), soln)
         == Ok(Scan(if |bs| == 0 then None else Some(Join(Equations(bs), " AND ")), Bind(soln, bs)))
    decreases |bs|
  {
    if |bs| > 0 {
      var front := bs[..|bs| - 1];
      assert ModelLines(bs)[..|bs| - 1] == ModelLines(front);
      assert Equations(bs)[..|bs| - 1] == Equations(front);
      ScanModelLines(front, soln);
      ModelLineReadsBack(bs[|bs| - 1], ScanModel(ModelLines(front), soln).value);
    }
  }

  /** Round trip: a `sat` answer listing well-formed bindings yields the
      clause `(NOT ((n1 = v1 ) AND ... ))` and the map with every binding
      applied; with no bindings the clause reads `(NOT (null))`. */
  lemma ResponseRoundTrip(bs: seq<Binding>, soln: map<string, int>)
    requires WellFormed(bs)
    ensures ResponseOf(["sat"] + ModelLines(bs), soln)
         == Sat("(NOT (" + (if |bs| == 0 then "null" else Join(Equations(bs), " AND ")) + "))", Bind(soln, bs))
  {
    assert (["sat"] + ModelLines(bs))[1..] == ModelLines(bs);
    assert StartsWith("sat", "sat");
    ScanModelLines(bs, soln);
  }

  /** An answer whose first line starts with `unsat` is infeasible; any
      other first line not starting with `sat` and not mentioning `unsat`
      halts. */
  lemma UnsatAnswer(first: string, rest: seq<string>, soln: map<string, int>)
    ensures StartsWith(first, "unsat") ==> ResponseOf([first] + rest, soln) == Unsat
    ensures !StartsWith(first, "sat") && !Contains(first, "unsat") ==> ResponseOf([first] + rest, soln).Halt?
  {
    if StartsWith(first, "unsat") {
      assert StartsWithAt(first, "unsat", 0);
      assert first[0] == 'u';
    }
  }

  /** The answer of the example: `sat` binding x3 to 7. */
  lemma ExampleAnswer()
    ensures ResponseOf(["sat", "x3 : INT = 7;"], map[]) == Sat("(NOT ((x3 = 7 )))", map["x3" := 7])
  {
    var bs := [Binding("x3", 7)];
    ExampleBinding();
    ResponseRoundTrip(bs, map[]);
  }

  /** The model line, the clause and the map of the binding x3 = 7. */
  lemma ExampleBinding()
    ensures ModelLines([Binding("x3", 7)]) == ["x3 : INT = 7;"]
    ensures "(NOT (" + Join(Equations([Binding("x3", 7)]), " AND ") + "))" == "(NOT ((x3 = 7 )))"
    ensures Bind(map[], [Binding("x3", 7)]) == map["x3" := 7]
  {
    var bs := [Binding("x3", 7)];
    assert IntToString(7) == "7";
    assert ModelLine(bs[0]) == "x3 : INT = 7;";
    var eq := Equation("x3", "7");
    assert eq == "(x3 = 7 )";
    assert Equations(bs) == [eq];
    assert Join([eq], " AND ") == eq;
  }
}

/** StringValue: the concolic value of a Java string. Its concrete text
    travels with an optional symbolic expression; the string methods it
    intercepts return the concrete Java answer together with a string
    predicate over the symbolic side, and MAKE_SYMBOLIC turns the string
    into a fresh input with two recorded length-bound branches.

    The patterns attached to startsWith, endsWith and contains are built
    with an escape given as a parameter: AsWritten is the class the code
    uses (Patterns.EscapeAsWritten), Intended the one it evidently means
    (Patterns.EscapeRE). */
module StringValues {
  import opened Wrappers
  import opened JavaText
  import opened Constraints
  import Patterns

  // ---- values ------------------------------------------------------------

  /** The concrete text of a StringValue and its symbolic expression, if
      any (a null symbolic field is None). */
  datatype Str = Str(s: string, sym: Option<SymString>)

  /** An argument of invokeMethod: a StringValue, an IntValue (only its
      concrete value matters here) or any other Value. */
  datatype Arg = StrArg(v: Str) | IntArg(k: int) | OtherArg

  /** What invokeMethod returns: an IntValue with an optional string
      predicate, a new StringValue, the length field of the symbolic
      expression, the answer of ObjectValue.invokeMethod (not part of this
      model), or an exception that escapes. */
  datatype Value =
    | IntVal(concrete: int, pred: Option<StringPredicate>)
    | StrVal(str: Str)
    | SymLength(expr: SymString)
    | Delegated
    | Thrown(exception: string)

  /** Java's `result ? 1 : 0`. */
  function Bit(b: bool): (r: int)
    ensures (r == 1) == b && (r == 0) == !b
  {
    if b then 1 else 0
  }

  /** The symbolic side of a value as a predicate term, or its text when it
      has none. */
  function TermOf(x: Str): (t: StrTerm)
    ensures t.Symbolic? <==> x.sym.Some?
  {
    if x.sym.Some? then Symbolic(x.sym.value) else Literal(x.s)
  }

  /** The value of a membership test: the IN predicate of the receiver's
      expression and the pattern is attached only when the receiver is
      symbolic. */
  function InValue(recv: Str, result: bool, pattern: string): (r: Value)
    ensures r.IntVal? && (r.concrete == 1 <==> result) && (r.pred.Some? <==> recv.sym.Some?)
    ensures r.pred.Some? ==> r.pred.value == StringPredicate(In, Symbolic(recv.sym.value), Literal(pattern))
  {
    if recv.sym.Some? then IntVal(Bit(result), Some(StringPredicate(In, Symbolic(recv.sym.value), Literal(pattern))))
    else IntVal(Bit(result), None)
  }

  // ---- the intercepted methods -------------------------------------------

  function EqualsOf(recv: Str, other: Str): Value {
    var result := recv.s == other.s;
    if recv.sym.Some? || other.sym.Some? then
      IntVal(Bit(result), Some(StringPredicate(Equals, TermOf(recv), TermOf(other))))
    else IntVal(Bit(result), None)
  }

  /** Which escapeRE the patterns are built with: the class as the code
      writes it, or the class it evidently means. */
  datatype Escape = AsWritten | Intended

  function EscapeWith(esc: Escape, s: string): string {
    match esc
    case AsWritten => Patterns.EscapeAsWritten(s)
    case Intended => Patterns.EscapeRE(s)
  }

  function PrefixPattern(esc: Escape, prefix: string): string {
    EscapeWith(esc, prefix) + ".*"
  }

  function OffsetPattern(esc: Escape, prefix: string, k: int): string {
    ".{" + IntToString(k) + "}" + EscapeWith(esc, prefix) + ".*"
  }

  function SuffixPattern(esc: Escape, suffix: string): string {
    ".*" + EscapeWith(esc, suffix)
  }

  function InfixPattern(esc: Escape, part: string): string {
    ".*" + EscapeWith(esc, part) + ".*"
  }

  /** concat: the receiver's text followed by the argument's, and the
      symbolic concatenation matching whichever sides are symbolic. */
  function ConcatOf(recv: Str, other: Str): Value {
    var result := recv.s + other.s;
    if recv.sym.Some? && other.sym.Some? then StrVal(Str(result, Some(Concat(recv.sym.value, other.sym.value))))
    else if recv.sym.Some? then StrVal(Str(result, Some(ConcatStr(recv.sym.value, other.s))))
    else if other.sym.Some? then StrVal(Str(result, Some(ConcatToStr(recv.s, other.sym.value))))
    else StrVal(Str(result, None))
  }

  /** StringValue.invokeMethod. A method name and arity it does not handle,
      and an argument of the wrong kind where it checks with instanceof, go
      to ObjectValue.invokeMethod; endsWith and contains cast without a
      check, and startsWith(s, k) casts its second argument, so a wrong
      kind there throws. `javaMatches` is String.matches, whose regular
      expression semantics is not part of this model. With `esc` ==
      AsWritten this is the method as the code has it. */
  function InvokeMethod(recv: Str, name: string, args: seq<Arg>, javaMatches: (string, string) -> bool,
                        esc: Escape): Value {
    if name == "equals" && |args| == 1 then
      if args[0].StrArg? then EqualsOf(recv, args[0].v) else Delegated
    else if name == "startsWith" && |args| == 1 then
      if args[0].StrArg? then InValue(recv, StartsWith(recv.s, args[0].v.s), PrefixPattern(esc, args[0].v.s))
      else Delegated
    else if name == "startsWith" && |args| == 2 then
      if !args[0].StrArg? then Delegated
      else if !args[1].IntArg? then Thrown("ClassCastException")
      else
        var other := args[0].v.s;
        var k := args[1].k;
        InValue(recv, StartsWithAt(recv.s, other, k), OffsetPattern(esc, other, k))
    else if name == "endsWith" && |args| == 1 then
      if args[0].StrArg? then InValue(recv, EndsWith(recv.s, args[0].v.s), SuffixPattern(esc, args[0].v.s))
      else Thrown("ClassCastException")
    else if name == "contains" && |args| == 1 then
      if args[0].StrArg? then InValue(recv, Contains(recv.s, args[0].v.s), InfixPattern(esc, args[0].v.s))
      else Thrown("ClassCastException")
    else if name == "concat" && |args| == 1 then
      if args[0].StrArg? then ConcatOf(recv, args[0].v) else Delegated
    else if name == "length" && |args| == 0 then
      if recv.sym.Some? then SymLength(recv.sym.value) else IntVal(|recv.s|, None)
    else if name == "matches" && |args| == 1 then
      if args[0].StrArg? then InValue(recv, javaMatches(recv.s, args[0].v.s), args[0].v.s) else Delegated
    else Delegated
  }

  // ---- what a symbolic expression stands for ------------------------------

  /** The strings chosen for the fresh symbols. */
  type Env = map<int, string>

  /** The text a symbolic expression denotes, once every fresh symbol in it
      has a string. */
  function Eval(e: SymString, env: Env): Option<string> {
    match e
    case Fresh(sym, _) => if sym in env then Some(env[sym]) else None
    case Concat(l, r) =>
      var a := Eval(l, env);
      var b := Eval(r, env);
      if a.Some? && b.Some? then Some(a.value + b.value) else None
    case ConcatStr(l, suffix) =>
      var a := Eval(l, env);
      if a.Some? then Some(a.value + suffix) else None
    case ConcatToStr(prefix, r) =>
      var b := Eval(r, env);
      if b.Some? then Some(prefix + b.value) else None
  }

  /** The symbolic side, when there is one, denotes the concrete text. */
  predicate Denotes(x: Str, env: Env) {
    x.sym.None? || Eval(x.sym.value, env) == Some(x.s)
  }

  function TermValue(t: StrTerm, env: Env): Option<string> {
    match t
    case Symbolic(e) => Eval(e, env)
    case Literal(s) => Some(s)
  }

  /** A string predicate holds: both sides have a value, and they are equal
      (EQ), or the pattern on the right accepts the left side (IN). */
  predicate Holds(p: StringPredicate, env: Env) {
    var l := TermValue(p.left, env);
    var r := TermValue(p.right, env);
    l.Some? && r.Some? &&
    match p.op
    case Equals => l.value == r.value
    case In => Patterns.Accepts(r.value, l.value)
  }

  predicate ArgsDenote(args: seq<Arg>, env: Env) {
    forall i :: 0 <= i < |args| && args[i].StrArg? ==> Denotes(args[i].v, env)
  }

  // ---- properties of the intercepted methods ------------------------------

  /** equals is 1 exactly when the texts are equal, and carries an EQ
      predicate exactly when one side is symbolic; the predicate's sides are
      the two operands, receiver first. */
  lemma EqualsValue(recv: Str, other: Str, jm: (string, string) -> bool, esc: Escape)
    ensures var r := InvokeMethod(recv, "equals", [StrArg(other)], jm, esc);
      r.IntVal? && (r.concrete == 1 <==> recv.s == other.s) && (r.concrete == 0 <==> recv.s != other.s)
      && (r.pred.Some? <==> recv.sym.Some? || other.sym.Some?)
      && (r.pred.Some? ==> r.pred.value == StringPredicate(Equals, TermOf(recv), TermOf(other)))
  {
  }

  /** concat yields the receiver's text followed by the argument's; the
      result is symbolic exactly when one operand is. */
  lemma ConcatValue(recv: Str, other: Str, jm: (string, string) -> bool, esc: Escape)
    ensures var r := InvokeMethod(recv, "concat", [StrArg(other)], jm, esc);
      r.StrVal? && r.str.s == recv.s + other.s
      && (r.str.sym.None? <==> recv.sym.None? && other.sym.None?)
  {
  }

  /** On a receiver that is not symbolic, the membership methods return the
      bare concrete answer. */
  lemma PlainReceiverNoPredicate(recv: Str, name: string, args: seq<Arg>, jm: (string, string) -> bool, esc: Escape)
    requires recv.sym.None?
    requires name in {"startsWith", "endsWith", "contains", "matches", "length"}
    ensures var r := InvokeMethod(recv, name, args, jm, esc);
      r.IntVal? ==> r.pred.None?
    ensures name == "length" && |args| == 0 ==> InvokeMethod(recv, name, args, jm, esc) == IntVal(|recv.s|, None)
  {
  }

  /** The concrete answers are Java's: startsWith, startsWith at an offset,
      endsWith and contains are 1 exactly when the check holds. */
  lemma ConcreteAnswers(recv: Str, other: Str, k: int, jm: (string, string) -> bool, esc: Escape)
    ensures InvokeMethod(recv, "startsWith", [StrArg(other)], jm, esc).concrete == 1 <==> StartsWith(recv.s, other.s)
    ensures InvokeMethod(recv, "startsWith", [StrArg(other), IntArg(k)], jm, esc).concrete == 1 <==> StartsWithAt(recv.s, other.s, k)
    ensures InvokeMethod(recv, "endsWith", [StrArg(other)], jm, esc).concrete == 1 <==> EndsWith(recv.s, other.s)
    ensures InvokeMethod(recv, "contains", [StrArg(other)], jm, esc).concrete == 1 <==> Contains(recv.s, other.s)
  {
  }

  /** Concat keeps the symbolic side faithful to the concrete text. */
  lemma ConcatDenotes(recv: Str, other: Str, env: Env)
    requires Denotes(recv, env) && Denotes(other, env)
    ensures ConcatOf(recv, other).StrVal? && Denotes(ConcatOf(recv, other).str, env)
  {
  }

  /** Concolic consistency: whenever the receiver and the string arguments'
      symbolic sides denote their texts, every predicate invokeMethod
      attaches holds exactly when its concrete answer is 1, a concatenation
      is again faithful, and a symbolic length is the length of the
      receiver's text. This holds for the intended escape (for the escape
      as written see AsWrittenInconsistent). String.matches is left out,
      since its concrete answer comes from Java's own regular expressions. */
  lemma Consistent(recv: Str, name: string, args: seq<Arg>, jm: (string, string) -> bool, env: Env)
    requires Denotes(recv, env) && ArgsDenote(args, env)
    requires name != "matches"
    ensures var r := InvokeMethod(recv, name, args, jm, Intended);
      (r.IntVal? && r.pred.Some? ==> (Holds(r.pred.value, env) <==> r.concrete == 1))
      && (r.StrVal? ==> Denotes(r.str, env))
      && (r.SymLength? ==> Eval(r.expr, env) == Some(recv.s))
  {
    var r := InvokeMethod(recv, name, args, jm, Intended);
    if r.IntVal? && r.pred.Some? {
      var t := recv.s;
      if name == "equals" {
        assert Denotes(args[0].v, env);
      } else if name == "startsWith" && |args| == 1 {
        Patterns.PrefixPattern(args[0].v.s, t);
      } else if name == "startsWith" {
        Patterns.OffsetPattern(args[0].v.s, args[1].k, t);
      } else if name == "endsWith" {
        Patterns.SuffixPattern(args[0].v.s, t);
      } else {
        Patterns.InfixPattern(args[0].v.s, t);
      }
    }
    if r.StrVal? {
      assert Denotes(args[0].v, env);
      ConcatDenotes(recv, args[0].v, env);
    }
  }

  /** With the escape as written, consistency fails: startsWith("\\") on a
      symbolic receiver whose text is "\\" answers 1, but the attached
      predicate `IN(sym, "\\.*")` does not hold for that text. */
  lemma AsWrittenInconsistent(jm: (string, string) -> bool)
    ensures var recv := Str("\\", Some(Fresh(0, 1)));
      var env: Env := map[0 := "\\"];
      var r := InvokeMethod(recv, "startsWith", [StrArg(Str("\\", None))], jm, AsWritten);
      Denotes(recv, env) && r.IntVal? && r.concrete == 1 && r.pred.Some? && !Holds(r.pred.value, env)
  {
    Patterns.EscapeAsWrittenMissesBackslash();
  }

  // ---- MAKE_SYMBOLIC --------------------------------------------------------

  /** One entry History.checkAndSetBranch records: the concrete outcome of
      the branch, its constraint, and whether setLastBranchDone marked it. */
  datatype Branch = Branch(outcome: bool, constraint: Constraint, done: bool)

  /** The branch history, as far as MAKE_SYMBOLIC uses it. */
  class History {
    var branches: seq<Branch>

    constructor ()
      ensures branches == []
    {
      branches := [];
    }

    method CheckAndSetBranch(outcome: bool, c: Constraint)
      modifies this
      ensures branches == old(branches) + [Branch(outcome, c, false)]
    {
      branches := branches + [Branch(outcome, c, false)];
    }

    method SetLastBranchDone()
      requires |branches| > 0
      modifies this
      ensures |branches| == |old(branches)|
      ensures branches[..|branches| - 1] == old(branches)[..|branches| - 1]
      ensures branches[|branches| - 1] == old(branches)[|branches| - 1].(done := true)
    {
      var n := |branches| - 1;
      branches := branches[..n] + [branches[n].(done := true)];
    }
  }

  /** The symbol counter shared by the values that become inputs, and the
      step it advances by. */
  class Symbols {
    var symbol: int
    const inc: int

    constructor (first: int, inc: int)
      ensures symbol == first && this.inc == inc
    {
      symbol := first;
      this.inc := inc;
    }
  }

  /** The lower bound `length >= 0` on the length symbol. */
  function LowerBound(lengthSym: int): Constraint {
    Linear([Term(lengthSym, 1)], 0, GE)
  }

  /** The upper bound `length - max <= 0`. */
  function UpperBound(lengthSym: int, max: int): Constraint {
    Linear([Term(lengthSym, 1)], -max, LE)
  }

  /** The two branches MAKE_SYMBOLIC records for a string of length len,
      each done exactly when its outcome holds. */
  function LengthBranches(len: nat, lengthSym: int, max: int): (r: seq<Branch>)
    ensures |r| == 2
    ensures forall i :: 0 <= i < 2 ==> r[i].done == r[i].outcome
    ensures r[0].constraint == LowerBound(lengthSym) && r[1].constraint == UpperBound(lengthSym, max)
  {
    [Branch(len >= 0, LowerBound(lengthSym), len >= 0),
     Branch(len <= max, UpperBound(lengthSym, max), len <= max)]
  }

  /** The value of `sum of coeff * x<id> + constant` with ids read in env. */
  function LinearValue(terms: seq<Term>, constant: int, env: map<int, int>): int {
    if |terms| == 0 then constant
    else (if terms[0].id in env then terms[0].coeff * env[terms[0].id] else 0) + LinearValue(terms[1..], constant, env)
  }

  predicate Compare(v: int, op: CompareOp) {
    match op
    case EQ => v == 0
    case NE => v != 0
    case LE => v <= 0
    case LT => v < 0
    case GE => v >= 0
    case GT => v > 0
  }

  /** A linear constraint holds under an integer assignment. */
  predicate LinearHolds(c: Constraint, env: map<int, int>)
    requires c.Linear?
  {
    Compare(LinearValue(c.terms, c.constant, env), c.op)
  }

  /** Each recorded branch's outcome is what its constraint says about the
      actual length; the lower bound always holds and is always done. */
  lemma LengthBranchesMeaning(len: nat, lengthSym: int, max: int)
    ensures var r := LengthBranches(len, lengthSym, max);
      forall i :: 0 <= i < 2 ==> r[i].constraint.Linear? && (LinearHolds(r[i].constraint, map[lengthSym := len]) <==> r[i].outcome)
    ensures LengthBranches(len, lengthSym, max)[0].done
    ensures LengthBranches(len, lengthSym, max)[1].done <==> len <= max
  {
    var env := map[lengthSym := len];
    assert LinearValue([Term(lengthSym, 1)], 0, env) == len;
    assert LinearValue([Term(lengthSym, 1)], -max, env) == len - max;
  }

  /** A StringValue whose symbolic field MAKE_SYMBOLIC sets. */
  class StringValue {
    const text: string
    var symbolic: Option<SymString>

    constructor (text: string, symbolic: Option<SymString>)
      ensures this.text == text && this.symbolic == symbolic
    {
      this.text := text;
      this.symbolic := symbolic;
    }

    /** MAKE_SYMBOLIC: takes the current symbol as the string's own, gives
        it a fresh expression whose length is the symbol lengthSym that
        IntValue.MAKE_SYMBOLIC handed out, and records the two length
        bounds, marking each done when it holds. */
    method MakeSymbolic(symbols: Symbols, history: History, lengthSym: int, maxStringLength: int) returns (ret: int)
      modifies this, symbols, history
      ensures ret == old(symbols.symbol) && symbols.symbol == old(symbols.symbol) + symbols.inc
      ensures symbolic == Some(Fresh(ret, lengthSym))
      ensures history.branches == old(history.branches) + LengthBranches(|text|, lengthSym, maxStringLength)
    {
      var length := |text|;
      ret := symbols.symbol;
      symbols.symbol := symbols.symbol + symbols.inc;
      symbolic := Some(Fresh(ret, lengthSym));
      ghost var before := history.branches;

      var results := LowerBound(lengthSym);
      var resultc := length >= 0;
      history.CheckAndSetBranch(resultc, results);
      if resultc {
        history.SetLastBranchDone();
      }
      assert history.branches == before + [LengthBranches(length, lengthSym, maxStringLength)[0]];

      results := UpperBound(lengthSym, maxStringLength);
      resultc := length <= maxStringLength;
      ghost var middle := history.branches;
      history.CheckAndSetBranch(resultc, results);
      if resultc {
        history.SetLastBranchDone();
      }
      assert history.branches == middle + [LengthBranches(length, lengthSym, maxStringLength)[1]];
    }
  }
}

/** The constraint algebra the solver adapter renders: a closed sum type whose
    variants are the Constraint classes CVC4Solver.print tests for, plus one
    variant standing for any other class. The operations on constraints that
    live outside the adapter (substitution, negation, the lowering of string
    predicates, the substitution of a solution into a length expression) are
    carried as function values in a Collaborators record. */
module Constraints {
  import opened Wrappers

  /** SymbolicInt.COMPARISON_OPS and SymbolicIntCompareConstraint.COMPARISON_OPS. */
  datatype CompareOp = EQ | NE | LE | LT | GE | GT

  /** CVC3Solver.CONSTRAINT_TYPE: the integer or the string half of the
      two-layer solving protocol. */
  datatype ConstraintType = INT | STR

  /** One entry `x<id> * coeff` of a SymbolicInt's linear map. */
  datatype Term = Term(id: int, coeff: int)

  /** An operand of SymbolicIntCompareConstraint: its printed form and the
      variable name it carries, if any. */
  datatype Operand = Operand(sym: Option<string>, text: string)

  /** SymbolicStringExpression, as built by StringValue: a fresh symbolic
      string (its own symbol and the symbol of its length), or one of the
      three concatenations StringValue.concat asks for. */
  datatype SymString =
    | Fresh(sym: int, lengthSym: int)
    | Concat(left: SymString, right: SymString)
    | ConcatStr(left: SymString, suffix: string)
    | ConcatToStr(prefix: string, right: SymString)

  /** One side of a string predicate: a symbolic string or a literal. */
  datatype StrTerm = Symbolic(expr: SymString) | Literal(s: string)

  /** SymbolicStringPredicate.COMPARISON_OPS as StringValue uses them:
      equality, and membership in a regular pattern. */
  datatype StringOp = Equals | In

  datatype StringPredicate = StringPredicate(op: StringOp, left: StrTerm, right: StrTerm)

  datatype Constraint =
    | Linear(terms: seq<Term>, constant: int, op: CompareOp)   // SymbolicInt: sum of terms + constant <op> 0
    | IntCompare(left: Operand, right: Operand, op: CompareOp) // SymbolicIntCompareConstraint
    | Or(children: seq<Constraint>)                            // SymbolicOrConstraint
    | And(children: seq<Constraint>)                           // SymbolicAndConstraint
    | Not(child: Constraint)                                   // SymbolicNotConstraint
    | True                                                     // SymbolicTrueConstraint.instance
    | False                                                    // SymbolicFalseConstraint.instance
    | StrPred(pred: StringPredicate)                           // SymbolicStringPredicate
    | Unsupported(kind: string)                                // any other Constraint class

  /** What SymbolicStringPredicate.getFormula yields: the names it declares
      in the free-variable set, in order, and the formula to print instead. */
  datatype Lowered = Lowered(declared: seq<string>, formula: Constraint)

  /** The operations the adapter calls but does not define:
      Constraint.substitute, Constraint.not, SymbolicStringPredicate.getFormula
      and IntValue.substituteInLinear on a string's length field. */
  datatype Collaborators = Collaborators(
    substitute: (Constraint, map<string, int>) -> Constraint,
    negate: Constraint -> Constraint,
    lower: (StringPredicate, ConstraintType, map<string, int>) -> Lowered,
    lengthOf: (SymString, map<string, int>) -> int)
}

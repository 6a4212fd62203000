/** The arithmetic of derived boxes, after compliance/formula.py: Python expression trees, the
    names a formula depends on, the grammar check made when a pack loads, and exact evaluation. */
module Formula {
  import opened Wrappers
  import opened RealSums

  datatype BinaryOperator = Add | Sub | Mult | Div | OtherBinary
  datatype UnaryOperator = USub | OtherUnary

  /** A constant as Python parsed it. A float carries the decimal its str() spells; any other
      constant carries what Decimal(str(value)) would give, if it gives anything. */
  datatype Literal =
    | IntLit(n: int)
    | FloatLit(decimal: real)
    | BoolLit(b: bool)
    | OtherLit(asDecimal: Option<real>)

  datatype Node =
    | BinOp(op: BinaryOperator, left: Node, right: Node)
    | UnaryOp(uop: UnaryOperator, operand: Node)
    | Call(func: Node, args: seq<Node>, keywords: seq<Node>)
    | Name(id: string)
    | Constant(literal: Literal)
    | Other(children: seq<Node>)

  datatype EvalError = UnknownBox(id: string) | DivisionByZero | NotADecimal | Unsupported

  const ABS := "abs"

  /** Every name anywhere in the tree, called functions included. */
  function AllNames(n: Node): set<string> {
    match n
    case BinOp(_, l, r) => AllNames(l) + AllNames(r)
    case UnaryOp(_, x) => AllNames(x)
    case Call(f, args, keywords) => AllNames(f) + NamesIn(args) + NamesIn(keywords)
    case Name(id) => {id}
    case Constant(_) => {}
    case Other(children) => NamesIn(children)
  }

  function NamesIn(ns: seq<Node>): set<string> {
    if ns == [] then {} else AllNames(ns[0]) + NamesIn(ns[1..])
  }

  /** The dependencies a formula reports: its names, less abs. */
  function Refs(n: Node): set<string> {
    AllNames(n) - {ABS}
  }

  predicate IsAbsCall(n: Node) {
    n.Call? && n.func == Name(ABS) && |n.args| == 1 && n.keywords == []
  }

  /** The grammar accepted at load time. */
  predicate Check(n: Node) {
    if n.BinOp? && n.op != OtherBinary then Check(n.left) && Check(n.right)
    else if n.UnaryOp? && n.uop == USub then Check(n.operand)
    else if IsAbsCall(n) then Check(n.args[0])
    else n.Name? || (n.Constant? && !n.literal.OtherLit?)
  }

  function Apply(op: BinaryOperator, a: real, b: real): Result<real, EvalError> {
    match op
    case Add => Ok(a + b)
    case Sub => Ok(a - b)
    case Mult => Ok(a * b)
    case Div => if b == 0.0 then Err(DivisionByZero) else Ok(a / b)
    case OtherBinary => Err(Unsupported)
  }

  function Decimal(literal: Literal): Result<real, EvalError> {
    match literal
    case IntLit(n) => Ok(n as real)
    case FloatLit(d) => Ok(d)
    case BoolLit(_) => Err(NotADecimal)
    case OtherLit(d) => if d.Some? then Ok(d.value) else Err(NotADecimal)
  }

  function Eval(n: Node, values: map<string, real>): Result<real, EvalError> {
    if n.BinOp? && n.op != OtherBinary then
      match Eval(n.left, values)
      case Err(e) => Err(e)
      case Ok(a) =>
        match Eval(n.right, values)
        case Err(e) => Err(e)
        case Ok(b) => Apply(n.op, a, b)
    else if n.UnaryOp? && n.uop == USub then
      match Eval(n.operand, values)
      case Err(e) => Err(e)
      case Ok(a) => Ok(-a)
    else if IsAbsCall(n) then
      match Eval(n.args[0], values)
      case Err(e) => Err(e)
      case Ok(a) => Ok(Magnitude(a))
    else if n.Name? then
      if n.id in values then Ok(values[n.id]) else Err(UnknownBox(n.id))
    else if n.Constant? then Decimal(n.literal)
    else Err(Unsupported)
  }

  // ---------------------------------------------------------------- what evaluation depends on

  /** The names evaluation looks up: unlike AllNames it leaves out the abs of a call, but keeps an
      abs that stands alone. */
  function Lookups(n: Node): set<string> {
    if n.BinOp? && n.op != OtherBinary then Lookups(n.left) + Lookups(n.right)
    else if n.UnaryOp? && n.uop == USub then Lookups(n.operand)
    else if IsAbsCall(n) then Lookups(n.args[0])
    else if n.Name? then {n.id}
    else {}
  }

  predicate HasBoolean(n: Node) {
    if n.BinOp? && n.op != OtherBinary then HasBoolean(n.left) || HasBoolean(n.right)
    else if n.UnaryOp? && n.uop == USub then HasBoolean(n.operand)
    else if IsAbsCall(n) then HasBoolean(n.args[0])
    else n.Constant? && n.literal.BoolLit?
  }

  predicate HasDivision(n: Node) {
    if n.BinOp? && n.op != OtherBinary then n.op == Div || HasDivision(n.left) || HasDivision(n.right)
    else if n.UnaryOp? && n.uop == USub then HasDivision(n.operand)
    else if IsAbsCall(n) then HasDivision(n.args[0])
    else false
  }

  /** For an accepted formula, the reported dependencies are the names looked up, abs excepted. */
  lemma {:induction false} RefsAreLookups(n: Node)
    requires Check(n)
    ensures Refs(n) == Lookups(n) - {ABS}
  {
    if n.BinOp? && n.op != OtherBinary {
      RefsAreLookups(n.left);
      RefsAreLookups(n.right);
      assert Refs(n) == Refs(n.left) + Refs(n.right);
    } else if n.UnaryOp? && n.uop == USub {
      RefsAreLookups(n.operand);
    } else if IsAbsCall(n) {
      RefsAreLookups(n.args[0]);
      assert n.args[1..] == [];
      assert NamesIn(n.args[1..]) == {} && NamesIn(n.keywords) == {};
      assert NamesIn(n.args) == AllNames(n.args[0]);
      assert AllNames(n.func) == {ABS};
    }
  }

  /** Evaluation depends only on the names it looks up. */
  lemma {:induction false} EvalDependsOnLookups(n: Node, a: map<string, real>, b: map<string, real>)
    requires forall id | id in Lookups(n) :: (id in a <==> id in b) && (id in a ==> a[id] == b[id])
    ensures Eval(n, a) == Eval(n, b)
  {
    if n.BinOp? && n.op != OtherBinary {
      EvalDependsOnLookups(n.left, a, b);
      EvalDependsOnLookups(n.right, a, b);
    } else if n.UnaryOp? && n.uop == USub {
      EvalDependsOnLookups(n.operand, a, b);
    } else if IsAbsCall(n) {
      EvalDependsOnLookups(n.args[0], a, b);
    }
  }

  /** An accepted formula without boolean literals, all of whose names have values, can only fail by
      dividing by zero. */
  lemma {:induction false} OnlyDivisionFails(n: Node, values: map<string, real>)
    requires Check(n) && !HasBoolean(n) && Lookups(n) <= values.Keys
    ensures Eval(n, values).Ok? || Eval(n, values) == Err(DivisionByZero)
  {
    if n.BinOp? && n.op != OtherBinary {
      OnlyDivisionFails(n.left, values);
      OnlyDivisionFails(n.right, values);
    } else if n.UnaryOp? && n.uop == USub {
      OnlyDivisionFails(n.operand, values);
    } else if IsAbsCall(n) {
      OnlyDivisionFails(n.args[0], values);
    }
  }

  /** Some division in the formula has a divisor that evaluates to zero. */
  predicate DividesByZero(n: Node, values: map<string, real>) {
    if n.BinOp? && n.op != OtherBinary then
      || DividesByZero(n.left, values) || DividesByZero(n.right, values)
      || (n.op == Div && Eval(n.right, values) == Ok(0.0))
    else if n.UnaryOp? && n.uop == USub then DividesByZero(n.operand, values)
    else if IsAbsCall(n) then DividesByZero(n.args[0], values)
    else false
  }

  /** Exactly when an accepted formula evaluates: it has no boolean literal, its names, a bare abs
      included, all have values, and no divisor is zero. So without a zero divisor it evaluates for every
      assignment to its names or for none. */
  lemma {:induction false} EvaluatesExactlyWhen(n: Node, values: map<string, real>)
    requires Check(n)
    ensures Eval(n, values).Ok? <==> !HasBoolean(n) && Lookups(n) <= values.Keys && !DividesByZero(n, values)
    ensures Eval(n, values) == Err(DivisionByZero) ==> DividesByZero(n, values)
    ensures DividesByZero(n, values) ==> HasDivision(n)
  {
    if n.BinOp? && n.op != OtherBinary {
      EvaluatesExactlyWhen(n.left, values);
      EvaluatesExactlyWhen(n.right, values);
    } else if n.UnaryOp? && n.uop == USub {
      EvaluatesExactlyWhen(n.operand, values);
    } else if IsAbsCall(n) {
      EvaluatesExactlyWhen(n.args[0], values);
    }
  }

  /** The same, by the error: an accepted formula evaluates if and only if it is not one of the two kinds
      the check lets through by mistake and does not divide by zero. */
  lemma EvaluatesUnlessDividing(n: Node, values: map<string, real>)
    requires Check(n)
    ensures Eval(n, values).Ok? <==> !HasBoolean(n) && Lookups(n) <= values.Keys && Eval(n, values) != Err(DivisionByZero)
  {
    EvaluatesExactlyWhen(n, values);
    if !HasBoolean(n) && Lookups(n) <= values.Keys {
      OnlyDivisionFails(n, values);
    }
  }

  /** The load-time check does not make evaluation safe: a bare abs and a boolean literal pass it,
      report no dependency, and fail whenever they are evaluated without a box named abs. */
  lemma AcceptedButFailing(values: map<string, real>)
    requires ABS !in values
    ensures Check(Name(ABS)) && Refs(Name(ABS)) == {} && Eval(Name(ABS), values) == Err(UnknownBox(ABS))
    ensures Check(Constant(BoolLit(true))) && Eval(Constant(BoolLit(true)), values) == Err(NotADecimal)
  {
  }

  // ---------------------------------------------------------------- what the operators mean

  /** Between formulas that have values, addition and subtraction undo each other, and the negation of a formula
      is its additive inverse. */
  lemma SumLaws(x: Node, y: Node, values: map<string, real>)
    requires Eval(x, values).Ok? && Eval(y, values).Ok?
    ensures Eval(BinOp(Sub, BinOp(Add, x, y), y), values) == Eval(x, values)
    ensures Eval(BinOp(Add, x, y), values) == Eval(BinOp(Add, y, x), values)
    ensures Eval(BinOp(Add, x, Constant(IntLit(0))), values) == Eval(x, values)
    ensures Eval(BinOp(Add, x, UnaryOp(USub, x)), values) == Ok(0.0)
  {
    hide Eval, Apply;
    var zero := Constant(IntLit(0));
    SumsApply(Eval(x, values).value, Eval(y, values).value);
    EvalSimple(x, values, 0);
    EvalBinary(Add, x, y, values);
    EvalBinary(Add, y, x, values);
    EvalBinary(Sub, BinOp(Add, x, y), y, values);
    EvalBinary(Add, x, zero, values);
    EvalBinary(Add, x, UnaryOp(USub, x), values);
  }

  lemma EvalBinary(op: BinaryOperator, x: Node, y: Node, values: map<string, real>)
    requires op != OtherBinary && Eval(x, values).Ok? && Eval(y, values).Ok?
    ensures Eval(BinOp(op, x, y), values) == Apply(op, Eval(x, values).value, Eval(y, values).value)
  {
    hide Apply;
  }

  lemma EvalSimple(x: Node, values: map<string, real>, n: int)
    requires Eval(x, values).Ok?
    ensures Eval(UnaryOp(USub, x), values) == Ok(-Eval(x, values).value)
    ensures Eval(Constant(IntLit(n)), values) == Ok(n as real)
  {
  }

  /** Multiplication has the literal one as unit and distributes over addition; division undoes it, except by
      zero, which is an error. */
  lemma ProductLaws(x: Node, y: Node, z: Node, values: map<string, real>)
    requires Eval(x, values).Ok? && Eval(y, values).Ok? && Eval(z, values).Ok?
    ensures Eval(BinOp(Mult, x, Constant(IntLit(1))), values) == Eval(x, values)
    ensures Eval(BinOp(Mult, x, BinOp(Add, y, z)), values)
         == Eval(BinOp(Add, BinOp(Mult, x, y), BinOp(Mult, x, z)), values)
    ensures Eval(y, values) != Ok(0.0) ==> Eval(BinOp(Div, BinOp(Mult, x, y), y), values) == Eval(x, values)
    ensures Eval(y, values) == Ok(0.0) ==> Eval(BinOp(Div, x, y), values) == Err(DivisionByZero)
  {
    hide Eval, Apply;
    var a, b, c := Eval(x, values).value, Eval(y, values).value, Eval(z, values).value;
    SumsApply(b, c);
    ProductsApply(a, b, c);
    OneApplies(a);
    SumsApply(Apply(Mult, a, b).value, Apply(Mult, a, c).value);
    EvalSimple(x, values, 1);
    EvalBinary(Mult, x, Constant(IntLit(1)), values);
    EvalBinary(Add, y, z, values);
    EvalBinary(Mult, x, BinOp(Add, y, z), values);
    EvalBinary(Mult, x, y, values);
    EvalBinary(Mult, x, z, values);
    EvalBinary(Add, BinOp(Mult, x, y), BinOp(Mult, x, z), values);
    EvalBinary(Div, BinOp(Mult, x, y), y, values);
    EvalBinary(Div, x, y, values);
    if b != 0.0 {
      QuotientApplies(a, b);
    } else {
      ZeroDivides(a);
    }
  }

  /** A call of abs is not negative, and is its argument or the negation of its argument. */
  lemma MagnitudeLaw(x: Node, values: map<string, real>)
    requires Eval(x, values).Ok?
    ensures var magnitude := Eval(Call(Name(ABS), [x], []), values);
            && magnitude.Ok? && magnitude.value >= 0.0
            && (magnitude == Eval(x, values) || magnitude == Eval(UnaryOp(USub, x), values))
  {
  }

  lemma SumsApply(a: real, b: real)
    ensures Apply(Add, a, b) == Ok(a + b) == Apply(Add, b, a) && Apply(Sub, a + b, b) == Ok(a)
    ensures Apply(Add, a, 0.0) == Ok(a) && Apply(Add, a, -a) == Ok(0.0)
  {
  }

  lemma ProductsApply(a: real, b: real, c: real)
    ensures Apply(Mult, a, b).Ok? && Apply(Mult, a, c).Ok?
    ensures Apply(Mult, a, b + c) == Ok(Apply(Mult, a, b).value + Apply(Mult, a, c).value)
  {
    var ab, ac, whole := a * b, a * c, a * (b + c);
    assert whole == ab + ac;
    assert Apply(Mult, a, b) == Ok(ab) && Apply(Mult, a, c) == Ok(ac) && Apply(Mult, a, b + c) == Ok(whole);
  }

  lemma OneApplies(a: real)
    ensures Apply(Mult, a, 1.0) == Ok(a)
  {
    assert a * 1.0 == a;
  }

  lemma ZeroDivides(a: real)
    ensures Apply(Div, a, 0.0) == Err(DivisionByZero)
  {
  }

  lemma QuotientApplies(a: real, b: real)
    requires b != 0.0
    ensures Apply(Div, Apply(Mult, a, b).value, b) == Ok(a)
  {
    var product := a * b;
    assert Apply(Mult, a, b) == Ok(product);
    assert product / b == a;
  }

  /** Literals stand for their numbers: an integer written with a point is the same literal, and adding
      literals gives the literal of the sum. */
  lemma LiteralLaws(m: int, n: int, d: real, e: real, values: map<string, real>)
    ensures Eval(Constant(FloatLit(n as real)), values) == Eval(Constant(IntLit(n)), values)
    ensures Eval(BinOp(Add, Constant(IntLit(m)), Constant(IntLit(n))), values) == Eval(Constant(IntLit(m + n)), values)
    ensures Eval(BinOp(Add, Constant(FloatLit(d)), Constant(FloatLit(e))), values) == Eval(Constant(FloatLit(d + e)), values)
  {
  }

  // ---------------------------------------------------------------- what the check accepts

  predicate HasOtherLiteral(n: Node) {
    if n.BinOp? && n.op != OtherBinary then HasOtherLiteral(n.left) || HasOtherLiteral(n.right)
    else if n.UnaryOp? && n.uop == USub then HasOtherLiteral(n.operand)
    else if IsAbsCall(n) then HasOtherLiteral(n.args[0])
    else n.Constant? && n.literal.OtherLit?
  }

  /** The load-time check refuses nothing that evaluates, but for literals that are not numbers. */
  lemma {:induction false} AcceptsWhatEvaluates(n: Node, values: map<string, real>)
    requires Eval(n, values).Ok? && !HasOtherLiteral(n)
    ensures Check(n)
  {
    if n.BinOp? && n.op != OtherBinary {
      AcceptsWhatEvaluates(n.left, values);
      AcceptsWhatEvaluates(n.right, values);
    } else if n.UnaryOp? && n.uop == USub {
      AcceptsWhatEvaluates(n.operand, values);
    } else if IsAbsCall(n) {
      AcceptsWhatEvaluates(n.args[0], values);
    }
  }

  /** And it accepts no such literal and nothing outside the grammar. */
  lemma {:induction false} AcceptsOnlyGrammar(n: Node, values: map<string, real>)
    requires Check(n)
    ensures !HasOtherLiteral(n) && Eval(n, values) != Err(Unsupported)
  {
    if n.BinOp? && n.op != OtherBinary {
      AcceptsOnlyGrammar(n.left, values);
      AcceptsOnlyGrammar(n.right, values);
    } else if n.UnaryOp? && n.uop == USub {
      AcceptsOnlyGrammar(n.operand, values);
    } else if IsAbsCall(n) {
      AcceptsOnlyGrammar(n.args[0], values);
    }
  }

  // ---------------------------------------------------------------- which missing box is reported

  /** The looked-up names as they occur, left to right. */
  function LookupOrder(n: Node): seq<string> {
    if n.BinOp? && n.op != OtherBinary then LookupOrder(n.left) + LookupOrder(n.right)
    else if n.UnaryOp? && n.uop == USub then LookupOrder(n.operand)
    else if IsAbsCall(n) then LookupOrder(n.args[0])
    else if n.Name? then [n.id]
    else []
  }

  ghost predicate AllKnown(names: seq<string>, values: map<string, real>) {
    forall j | 0 <= j < |names| :: names[j] in values
  }

  /** Where nothing else can fail, evaluation reports the leftmost name without a value. */
  lemma {:induction false} LeftmostMissingIsReported(n: Node, values: map<string, real>)
    requires Check(n) && !HasBoolean(n) && !HasDivision(n)
    ensures Eval(n, values).Ok? <==> AllKnown(LookupOrder(n), values)
    ensures forall k | 0 <= k < |LookupOrder(n)| && AllKnown(LookupOrder(n)[..k], values) && LookupOrder(n)[k] !in values ::
              Eval(n, values) == Err(UnknownBox(LookupOrder(n)[k]))
  {
    hide AllKnown;
    if n.BinOp? && n.op != OtherBinary {
      LeftmostMissingIsReported(n.left, values);
      LeftmostMissingIsReported(n.right, values);
      var xs, ys := LookupOrder(n.left), LookupOrder(n.right);
      KnownConcat(xs, ys, values);
      forall k | 0 <= k < |xs + ys| && AllKnown((xs + ys)[..k], values) && (xs + ys)[k] !in values
        ensures Eval(n, values) == Err(UnknownBox((xs + ys)[k]))
      {
        MissingInConcat(xs, ys, values, k);
      }
    } else if n.UnaryOp? && n.uop == USub {
      LeftmostMissingIsReported(n.operand, values);
    } else if IsAbsCall(n) {
      LeftmostMissingIsReported(n.args[0], values);
    } else {
      AtomKnown(n, values);
    }
  }

  lemma AtomKnown(n: Node, values: map<string, real>)
    requires n.Name? || n.Constant?
    ensures AllKnown(LookupOrder(n), values) <==> n.Constant? || n.id in values
  {
    if n.Name? {
      assert LookupOrder(n)[0] == n.id;
    }
  }

  lemma KnownConcat(xs: seq<string>, ys: seq<string>, values: map<string, real>)
    ensures AllKnown(xs + ys, values) <==> AllKnown(xs, values) && AllKnown(ys, values)
  {
    var names := xs + ys;
    assert forall j | 0 <= j < |xs| :: names[j] == xs[j];
    assert forall j | 0 <= j < |ys| :: names[|xs| + j] == ys[j];
  }

  /** The first missing name of two lists is the first of the one, or of the other when the one has none. */
  lemma MissingInConcat(xs: seq<string>, ys: seq<string>, values: map<string, real>, k: nat)
    requires k < |xs + ys| && AllKnown((xs + ys)[..k], values) && (xs + ys)[k] !in values
    ensures k < |xs| ==> AllKnown(xs[..k], values) && !AllKnown(xs, values)
    ensures k >= |xs| ==> AllKnown(xs, values) && AllKnown(ys[..k - |xs|], values)
  {
    if k < |xs| {
      assert (xs + ys)[..k] == xs[..k] && (xs + ys)[k] == xs[k];
    } else {
      assert (xs + ys)[..k] == xs + ys[..k - |xs|];
      KnownConcat(xs, ys[..k - |xs|], values);
    }
  }

  // ---------------------------------------------------------------- substitution

  /** Replaces the looked-up names that have a definition by it. */
  function Substitute(n: Node, defs: map<string, Node>): Node {
    if n.BinOp? && n.op != OtherBinary then BinOp(n.op, Substitute(n.left, defs), Substitute(n.right, defs))
    else if n.UnaryOp? && n.uop == USub then UnaryOp(USub, Substitute(n.operand, defs))
    else if IsAbsCall(n) then Call(n.func, [Substitute(n.args[0], defs)], [])
    else if n.Name? && n.id in defs then defs[n.id]
    else n
  }

  /** Substituting definitions and then evaluating equals evaluating over the definitions' values. */
  lemma {:induction false} SubstituteThenEval(n: Node, defs: map<string, Node>, base: map<string, real>, values: map<string, real>)
    requires forall id | id in Lookups(n) && id in defs :: id in values && Eval(defs[id], base) == Ok(values[id])
    requires forall id | id in Lookups(n) && id !in defs ::
               (id in base <==> id in values) && (id in base ==> base[id] == values[id])
    ensures Eval(Substitute(n, defs), base) == Eval(n, values)
  {
    hide Apply, Decimal;
    if n.BinOp? && n.op != OtherBinary {
      SubstituteThenEval(n.left, defs, base, values);
      SubstituteThenEval(n.right, defs, base, values);
    } else if n.UnaryOp? && n.uop == USub {
      SubstituteThenEval(n.operand, defs, base, values);
    } else if IsAbsCall(n) {
      SubstituteThenEval(n.args[0], defs, base, values);
    }
  }

  /** After substitution, only names without a definition and names inside definitions remain. */
  lemma {:induction false} SubstituteLookups(n: Node, defs: map<string, Node>, allowed: set<string>)
    requires forall id | id in Lookups(n) && id in defs :: Lookups(defs[id]) <= allowed
    requires forall id | id in Lookups(n) && id !in defs :: id in allowed
    ensures Lookups(Substitute(n, defs)) <= allowed
  {
    if n.BinOp? && n.op != OtherBinary {
      SubstituteLookups(n.left, defs, allowed);
      SubstituteLookups(n.right, defs, allowed);
    } else if n.UnaryOp? && n.uop == USub {
      SubstituteLookups(n.operand, defs, allowed);
    } else if IsAbsCall(n) {
      SubstituteLookups(n.args[0], defs, allowed);
    }
  }
}

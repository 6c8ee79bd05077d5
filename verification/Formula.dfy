/** Token-rule formulas (internal/tokens/rules.go) from an already parsed expression. */
module Formula {
  import opened Common

  datatype Variable = WordCount | AcceptanceRatio | TierMultiplier | CallCount | BaseRate

  datatype Operator = Add | Sub | Mul | Quo | OtherOperator

  datatype Rounding = Floor | Ceil | RoundHalfAway

  /** The expression forms evalExpr distinguishes. A literal carries the number ParseFloat yields, or None
    * when its kind or spelling is refused; Unsupported stands for every other node type. */
  datatype Expr =
    | Literal(number: Option<real>)
    | Known(variable: Variable)
    | Unknown(name: string)
    | Paren(inner: Expr)
    | Unary(op: Operator, operand: Expr)
    | Binary(op: Operator, lhs: Expr, rhs: Expr)
    | Call(callee: Callee, args: seq<Expr>)
    | Unsupported

  datatype Callee = Rounds(rounding: Rounding) | OtherName(name: string) | NotAName

  datatype Vars = Vars(wordCount: int, acceptanceRatio: real, tierMultiplier: real, callCount: int)

  const ZERO_VARS := Vars(0, 0.0, 0.0, 0)

  datatype Fault =
    | BadLiteral | UnknownIdentifier | BadUnary | BadBinary | DivisionByZero
    | BadCallee | WrongArity | UnknownFunction | BadNode

  type Outcome = Result<real, Fault>

  function Lookup(v: Variable, vars: Vars, baseRate: real): real {
    match v
    case WordCount => vars.wordCount as real
    case AcceptanceRatio => vars.acceptanceRatio
    case TierMultiplier => vars.tierMultiplier
    case CallCount => vars.callCount as real
    case BaseRate => baseRate
  }

  /** math.Round: half away from zero. */
  function Round(x: real): int {
    if x >= 0.0 then (x + 0.5).Floor else -(0.5 - x).Floor
  }

  function Apply(rounding: Rounding, x: real): real {
    match rounding
    case Floor => x.Floor as real
    case Ceil => -((-x).Floor as real)
    case RoundHalfAway => Round(x) as real
  }

  function Combine(op: Operator, x: real, y: real): Outcome {
    match op
    case Add => Ok(x + y)
    case Sub => Ok(x - y)
    case Mul => Ok(x * y)
    case Quo => if y == 0.0 then Err(DivisionByZero) else Ok(x / y)
    case OtherOperator => Err(BadBinary)
  }

  /** evalExpr, in its order: operands first, left to right, then the operator. */
  function Eval(e: Expr, vars: Vars, baseRate: real): Outcome {
    match e
    case Literal(number) => if number.Some? then Ok(number.value) else Err(BadLiteral)
    case Known(v) => Ok(Lookup(v, vars, baseRate))
    case Unknown(_) => Err(UnknownIdentifier)
    case Paren(inner) => Eval(inner, vars, baseRate)
    case Unary(op, operand) =>
      var v := Eval(operand, vars, baseRate);
      if v.Err? then v
      else if op == Sub then Ok(-v.value)
      else if op == Add then v
      else Err(BadUnary)
    case Binary(op, lhs, rhs) =>
      var x := Eval(lhs, vars, baseRate);
      if x.Err? then x else
      var y := Eval(rhs, vars, baseRate);
      if y.Err? then y else Combine(op, x.value, y.value)
    case Call(callee, args) =>
      if callee.NotAName? then Err(BadCallee)
      else if |args| != 1 then Err(WrongArity)
      else
        var v := Eval(args[0], vars, baseRate);
        if v.Err? then v
        else if callee.Rounds? then Ok(Apply(callee.rounding, v.value))
        else Err(UnknownFunction)
    case Unsupported => Err(BadNode)
  }

  // ---- What a formula means -------------------------------------------------------------------------

  /** The number a variable stands for. */
  predicate Denotes(v: Variable, vars: Vars, baseRate: real, x: real) {
    && (v == WordCount ==> x == vars.wordCount as real)
    && (v == AcceptanceRatio ==> x == vars.acceptanceRatio)
    && (v == TierMultiplier ==> x == vars.tierMultiplier)
    && (v == CallCount ==> x == vars.callCount as real)
    && (v == BaseRate ==> x == baseRate)
  }

  /** Sum, difference, product, and the quotient by a number other than zero; no other operator has a result. */
  predicate Relates(op: Operator, x: real, y: real, v: real) {
    match op
    case Add => v - y == x
    case Sub => v + y == x
    case Mul => v == x * y
    case Quo => y != 0.0 && v * y == x
    case OtherOperator => false
  }

  predicate IsWhole(v: real) {
    v.Floor as real == v
  }

  /** A whole number at most 1/2 away, and the farther from zero of two. */
  predicate IsNearestWhole(x: real, v: real) {
    IsWhole(v) && -0.5 <= v - x <= 0.5 && (v - x == 0.5 ==> x > 0.0) && (v - x == -0.5 ==> x < 0.0)
  }

  predicate RoundsTo(rounding: Rounding, x: real, v: real) {
    match rounding
    case Floor => IsWhole(v) && v <= x < v + 1.0
    case Ceil => IsWhole(v) && v - 1.0 < x <= v
    case RoundHalfAway => IsNearestWhole(x, v)
  }

  /** The value of an expression, if it has one. */
  ghost predicate Means(e: Expr, vars: Vars, baseRate: real, v: real) {
    match e
    case Literal(number) => number == Some(v)
    case Known(variable) => Denotes(variable, vars, baseRate, v)
    case Unknown(_) => false
    case Paren(inner) => Means(inner, vars, baseRate, v)
    case Unary(op, operand) => (op == Add && Means(operand, vars, baseRate, v)) || (op == Sub && Means(operand, vars, baseRate, -v))
    case Binary(op, lhs, rhs) => exists x, y :: Means(lhs, vars, baseRate, x) && Means(rhs, vars, baseRate, y) && Relates(op, x, y, v)
    case Call(callee, args) =>
      callee.Rounds? && |args| == 1 && exists x :: Means(args[0], vars, baseRate, x) && RoundsTo(callee.rounding, x, v)
    case Unsupported => false
  }

  lemma QuotientIsUnique(x: real, y: real, v: real)
    requires y != 0.0
    ensures v * y == x <==> v == x / y
  {
    assert x / y * y == x;
    assert v * y / y == v;
  }

  lemma CombineRelates(op: Operator, x: real, y: real, v: real)
    ensures Combine(op, x, y) == Ok(v) <==> Relates(op, x, y, v)
  {
    if op == Quo && y != 0.0 {
      QuotientIsUnique(x, y, v);
    }
  }

  lemma IntegersAreWhole(n: int)
    ensures IsWhole(n as real)
  {
  }

  /** Two whole numbers less than 1 apart are one. */
  lemma WholesApart(v: real, w: real)
    requires IsWhole(v) && IsWhole(w) && -1.0 < v - w < 1.0
    ensures v == w
  {
    var m, n := v.Floor, w.Floor;
    assert v == m as real && w == n as real;
    assert m - n < 1 && n - m < 1;
  }

  lemma RoundIsNearest(x: real)
    ensures IsNearestWhole(x, Round(x) as real)
  {
    IntegersAreWhole(Round(x));
    hide IsWhole;
  }

  lemma ApplyIsRounding(rounding: Rounding, x: real)
    ensures RoundsTo(rounding, x, Apply(rounding, x))
  {
    IntegersAreWhole(x.Floor);
    IntegersAreWhole(-(-x).Floor);
    RoundIsNearest(x);
    hide IsWhole, Round;
  }

  lemma RoundingIsUnique(rounding: Rounding, x: real, v: real, w: real)
    requires RoundsTo(rounding, x, v) && RoundsTo(rounding, x, w)
    ensures v == w
  {
    hide IsWhole;
    if -1.0 < v - w < 1.0 {
      WholesApart(v, w);
    }
  }

  lemma ApplyRounds(rounding: Rounding, x: real, v: real)
    ensures Apply(rounding, x) == v <==> RoundsTo(rounding, x, v)
  {
    hide Apply, RoundsTo;
    ApplyIsRounding(rounding, x);
    if RoundsTo(rounding, x, v) {
      RoundingIsUnique(rounding, x, v, Apply(rounding, x));
    }
  }

  /** Main result: evaluation succeeds with exactly the number the formula means, and fails exactly when it means none. */
  lemma {:induction false} EvalIsMeaning(e: Expr, vars: Vars, baseRate: real)
    ensures forall v :: Means(e, vars, baseRate, v) <==> Eval(e, vars, baseRate) == Ok(v)
  {
    match e
    case Paren(inner) => EvalIsMeaning(inner, vars, baseRate);
    case Unary(op, operand) =>
      EvalIsMeaning(operand, vars, baseRate);
      forall v ensures Means(e, vars, baseRate, v) <==> Eval(e, vars, baseRate) == Ok(v) {
        assert Means(operand, vars, baseRate, -v) <==> Eval(operand, vars, baseRate) == Ok(-v);
      }
    case Binary(op, lhs, rhs) =>
      EvalIsMeaning(lhs, vars, baseRate);
      EvalIsMeaning(rhs, vars, baseRate);
      BinaryIsMeaning(op, lhs, rhs, vars, baseRate);
    case Call(callee, args) =>
      if callee.Rounds? && |args| == 1 {
        EvalIsMeaning(args[0], vars, baseRate);
        CallIsMeaning(callee, args, vars, baseRate);
      }
    case _ =>
  }

  lemma BinaryIsMeaning(op: Operator, lhs: Expr, rhs: Expr, vars: Vars, baseRate: real)
    requires forall v :: Means(lhs, vars, baseRate, v) <==> Eval(lhs, vars, baseRate) == Ok(v)
    requires forall v :: Means(rhs, vars, baseRate, v) <==> Eval(rhs, vars, baseRate) == Ok(v)
    ensures forall v :: Means(Binary(op, lhs, rhs), vars, baseRate, v) <==> Eval(Binary(op, lhs, rhs), vars, baseRate) == Ok(v)
  {
    var x, y := Eval(lhs, vars, baseRate), Eval(rhs, vars, baseRate);
    hide Combine, Relates;
    forall v ensures Means(Binary(op, lhs, rhs), vars, baseRate, v) <==> Eval(Binary(op, lhs, rhs), vars, baseRate) == Ok(v) {
      if x.Ok? && y.Ok? {
        CombineRelates(op, x.value, y.value, v);
        assert Means(lhs, vars, baseRate, x.value) && Means(rhs, vars, baseRate, y.value);
      }
    }
  }

  lemma CallIsMeaning(callee: Callee, args: seq<Expr>, vars: Vars, baseRate: real)
    requires callee.Rounds? && |args| == 1
    requires forall v :: Means(args[0], vars, baseRate, v) <==> Eval(args[0], vars, baseRate) == Ok(v)
    ensures forall v :: Means(Call(callee, args), vars, baseRate, v) <==> Eval(Call(callee, args), vars, baseRate) == Ok(v)
  {
    var x := Eval(args[0], vars, baseRate);
    hide Apply, RoundsTo;
    forall v ensures Means(Call(callee, args), vars, baseRate, v) <==> Eval(Call(callee, args), vars, baseRate) == Ok(v) {
      if x.Ok? {
        ApplyRounds(callee.rounding, x.value, v);
        assert Means(args[0], vars, baseRate, x.value);
      }
    }
  }

  /** ValidateFormula: a dry run in the all-zero environment. */
  predicate Validates(e: Expr) {
    Eval(e, ZERO_VARS, 0.0).Ok?
  }

  /** A rule and its evaluation; the formula is already parsed. */
  datatype Rule = Rule(formula: Expr, baseRate: real)

  function Evaluate(rule: Rule, vars: Vars): Result<int, Fault> {
    var v := Eval(rule.formula, vars, rule.baseRate);
    if v.Ok? then Ok(Round(v.value)) else Err(v.error)
  }

  predicate MentionsVariable(e: Expr) {
    match e
    case Literal(_) => false
    case Known(_) => true
    case Unknown(_) => true
    case Paren(inner) => MentionsVariable(inner)
    case Unary(_, operand) => MentionsVariable(operand)
    case Binary(_, lhs, rhs) => MentionsVariable(lhs) || MentionsVariable(rhs)
    case Call(_, args) => exists a :: a in args && MentionsVariable(a)
    case Unsupported => false
  }

  predicate DivisorsAreConstant(e: Expr) {
    match e
    case Paren(inner) => DivisorsAreConstant(inner)
    case Unary(_, operand) => DivisorsAreConstant(operand)
    case Binary(op, lhs, rhs) =>
      DivisorsAreConstant(lhs) && DivisorsAreConstant(rhs) && (op == Quo ==> !MentionsVariable(rhs))
    case Call(_, args) => forall a :: a in args ==> DivisorsAreConstant(a)
    case _ => true
  }

  lemma {:induction false} ConstantsIgnoreTheEnvironment(e: Expr, vars: Vars, baseRate: real, vars': Vars, baseRate': real)
    requires !MentionsVariable(e)
    ensures Eval(e, vars, baseRate) == Eval(e, vars', baseRate')
  {
    match e
    case Paren(inner) => ConstantsIgnoreTheEnvironment(inner, vars, baseRate, vars', baseRate');
    case Unary(_, operand) => ConstantsIgnoreTheEnvironment(operand, vars, baseRate, vars', baseRate');
    case Binary(_, lhs, rhs) =>
      ConstantsIgnoreTheEnvironment(lhs, vars, baseRate, vars', baseRate');
      ConstantsIgnoreTheEnvironment(rhs, vars, baseRate, vars', baseRate');
    case Call(_, args) =>
      if |args| == 1 {
        ConstantsIgnoreTheEnvironment(args[0], vars, baseRate, vars', baseRate');
      }
    case _ =>
  }

  /** Success in one environment bounds the behaviour in every other. */
  lemma {:induction false} OneSuccessBoundsAll(e: Expr, vars: Vars, baseRate: real, vars': Vars, baseRate': real)
    requires Eval(e, vars, baseRate).Ok?
    ensures Eval(e, vars', baseRate').Ok? || Eval(e, vars', baseRate') == Err(DivisionByZero)
    ensures DivisorsAreConstant(e) ==> Eval(e, vars', baseRate').Ok?
  {
    match e
    case Paren(inner) => OneSuccessBoundsAll(inner, vars, baseRate, vars', baseRate');
    case Unary(_, operand) => OneSuccessBoundsAll(operand, vars, baseRate, vars', baseRate');
    case Binary(op, lhs, rhs) =>
      OneSuccessBoundsAll(lhs, vars, baseRate, vars', baseRate');
      OneSuccessBoundsAll(rhs, vars, baseRate, vars', baseRate');
      if op == Quo && DivisorsAreConstant(e) {
        ConstantsIgnoreTheEnvironment(rhs, vars, baseRate, vars', baseRate');
      }
    case Call(_, args) => OneSuccessBoundsAll(args[0], vars, baseRate, vars', baseRate');
    case _ =>
  }

  /** Main result: a formula accepted by the dry run can later fail only by dividing by zero, and not even
    * so when no divisor mentions an identifier; a formula refused for any reason but division by zero
    * evaluates in no environment. */
  lemma ValidationIsSound(e: Expr, vars: Vars, baseRate: real)
    ensures Validates(e) ==> Eval(e, vars, baseRate).Ok? || Eval(e, vars, baseRate) == Err(DivisionByZero)
    ensures Validates(e) && DivisorsAreConstant(e) ==> Eval(e, vars, baseRate).Ok?
    ensures !Validates(e) && Eval(e, ZERO_VARS, 0.0) != Err(DivisionByZero) ==> Eval(e, vars, baseRate).Err?
  {
    if Validates(e) {
      OneSuccessBoundsAll(e, ZERO_VARS, 0.0, vars, baseRate);
    } else if Eval(e, vars, baseRate).Ok? {
      OneSuccessBoundsAll(e, vars, baseRate, ZERO_VARS, 0.0);
    }
  }

  /** Conversely, the dry run refuses a formula that works in practice: `base_rate / word_count` divides by the
    * zero environment's word_count. */
  lemma ValidationIsIncomplete()
    ensures var e := Binary(Quo, Known(BaseRate), Known(WordCount));
            !Validates(e)
            && forall vars: Vars, baseRate: real :: vars.wordCount != 0 ==> Eval(e, vars, baseRate).Ok?
  {
    var e := Binary(Quo, Known(BaseRate), Known(WordCount));
    assert Eval(Known(WordCount), ZERO_VARS, 0.0) == Ok(0.0);
    assert !Validates(e);
    forall vars: Vars, baseRate: real | vars.wordCount != 0
      ensures Eval(e, vars, baseRate).Ok?
    {
      assert Eval(Known(WordCount), vars, baseRate) == Ok(vars.wordCount as real);
      assert Eval(Known(BaseRate), vars, baseRate) == Ok(baseRate);
    }
  }

  ghost predicate HasMeaning(e: Expr, vars: Vars, baseRate: real) {
    exists v :: Means(e, vars, baseRate, v)
  }

  /** A rule gives the whole number nearest to what its formula means, ties going away from zero, and an error exactly when it
    * means nothing. */
  lemma EvaluateIsNearest(rule: Rule, vars: Vars)
    ensures Evaluate(rule, vars).Ok? <==> HasMeaning(rule.formula, vars, rule.baseRate)
    ensures forall v :: Evaluate(rule, vars).Ok? && Means(rule.formula, vars, rule.baseRate, v)
                        ==> IsNearestWhole(v, Evaluate(rule, vars).value as real)
  {
    EvalIsMeaning(rule.formula, vars, rule.baseRate);
    var v := Eval(rule.formula, vars, rule.baseRate);
    hide Eval;
    if v.Ok? {
      assert Means(rule.formula, vars, rule.baseRate, v.value);
      RoundIsNearest(v.value);
    }
  }

  // ---- What goes wrong ----------------------------------------------------------------------------

  /** The first thing wrong with an expression, from left to right: its own fault once its parts have a meaning. */
  ghost predicate Faults(e: Expr, vars: Vars, baseRate: real, fault: Fault) {
    match e
    case Literal(number) => number == None && fault == BadLiteral
    case Known(_) => false
    case Unknown(_) => fault == UnknownIdentifier
    case Paren(inner) => Faults(inner, vars, baseRate, fault)
    case Unary(op, operand) =>
      Faults(operand, vars, baseRate, fault)
      || (HasMeaning(operand, vars, baseRate) && op != Add && op != Sub && fault == BadUnary)
    case Binary(op, lhs, rhs) =>
      || Faults(lhs, vars, baseRate, fault)
      || (HasMeaning(lhs, vars, baseRate) && Faults(rhs, vars, baseRate, fault))
      || (HasMeaning(lhs, vars, baseRate) && HasMeaning(rhs, vars, baseRate)
          && ((op == OtherOperator && fault == BadBinary) || (op == Quo && Means(rhs, vars, baseRate, 0.0) && fault == DivisionByZero)))
    case Call(callee, args) =>
      if callee.NotAName? then fault == BadCallee
      else if |args| != 1 then fault == WrongArity
      else Faults(args[0], vars, baseRate, fault) || (HasMeaning(args[0], vars, baseRate) && callee.OtherName? && fault == UnknownFunction)
    case Unsupported => fault == BadNode
  }

  lemma MeaningIsValue(e: Expr, vars: Vars, baseRate: real)
    ensures HasMeaning(e, vars, baseRate) <==> Eval(e, vars, baseRate).Ok?
    ensures Eval(e, vars, baseRate) == Ok(0.0) <==> Means(e, vars, baseRate, 0.0)
  {
    EvalIsMeaning(e, vars, baseRate);
    hide Eval, Means;
    if Eval(e, vars, baseRate).Ok? {
      assert Means(e, vars, baseRate, Eval(e, vars, baseRate).value);
    }
  }

  lemma BinaryFaults(op: Operator, lhs: Expr, rhs: Expr, vars: Vars, baseRate: real, fault: Fault)
    requires Eval(lhs, vars, baseRate) == Err(fault) <==> Faults(lhs, vars, baseRate, fault)
    requires Eval(rhs, vars, baseRate) == Err(fault) <==> Faults(rhs, vars, baseRate, fault)
    ensures Eval(Binary(op, lhs, rhs), vars, baseRate) == Err(fault) <==> Faults(Binary(op, lhs, rhs), vars, baseRate, fault)
  {
    MeaningIsValue(lhs, vars, baseRate);
    MeaningIsValue(rhs, vars, baseRate);
    hide Means, HasMeaning;
  }

  /** An evaluation fails with exactly the fault the expression has. */
  lemma {:induction false} EvalFaults(e: Expr, vars: Vars, baseRate: real, fault: Fault)
    ensures Eval(e, vars, baseRate) == Err(fault) <==> Faults(e, vars, baseRate, fault)
  {
    match e
    case Paren(inner) => EvalFaults(inner, vars, baseRate, fault);
    case Unary(op, operand) =>
      EvalFaults(operand, vars, baseRate, fault);
      MeaningIsValue(operand, vars, baseRate);
      hide Means, HasMeaning;
    case Binary(op, lhs, rhs) =>
      EvalFaults(lhs, vars, baseRate, fault);
      EvalFaults(rhs, vars, baseRate, fault);
      BinaryFaults(op, lhs, rhs, vars, baseRate, fault);
      hide Eval, Faults;
    case Call(callee, args) =>
      if |args| == 1 {
        EvalFaults(args[0], vars, baseRate, fault);
        MeaningIsValue(args[0], vars, baseRate);
      }
      hide Means, HasMeaning;
    case _ =>
  }
}

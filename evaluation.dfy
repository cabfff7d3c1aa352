/** What the server's formula interpreter computes for one interval index:
    the value of an operand or a formula over the resolved input series, or
    the exception it raises. Operands of add/mul/div lists are evaluated in
    order and folded left to right; a failing operand stops the fold with its
    error. The lemmas give each operator its arithmetic meaning against
    independent reference definitions (`Sum`, `Product`), fix the quirks
    (a zero divisor, empty lists), and prove that a formula the validator
    accepts always evaluates. The imperative interpreter in module `Engine`
    is proved to compute these functions. */
module Evaluation {
  import opened Wrappers
  import opened Literals
  import opened FormulaTypes
  import opened Validation

  /** The exceptions the interpreter can raise: a missing key (`KeyError`)
      or a constant text that does not read as a number (`ValueError`). */
  datatype EvalError = MissingKey(key: string) | InvalidConst(text: string)

  type Value = Result<real, EvalError>

  /** One interval of an input time series. Its quantity is a number, or
      `None` when the key is absent (read as 0); a quantity that is not a
      number cannot be represented. */
  datatype InputInterval = InputInterval(start: Option<string>, end: Option<string>, quantity: Option<real>)

  /** The input series of one meter location. */
  datatype InputSeries = InputSeries(meloId: string, intervals: seq<InputInterval>)

  /** The resolved inputs, meter location to series, in insertion order. */
  type InputData = seq<InputSeries>

  // ---------------------------------------------------------------------
  // Meter operands
  // ---------------------------------------------------------------------

  /** Position of the first series of meter location `id`, or `|input|`. */
  function FindSeries(input: InputData, id: string): (k: nat)
    ensures k <= |input|
    ensures forall j :: 0 <= j < k ==> input[j].meloId != id
    ensures k < |input| ==> input[k].meloId == id
  {
    if |input| == 0 then 0
    else if input[0].meloId == id then 0
    else 1 + FindSeries(input[1..], id)
  }

  /** The base reading of a meter at an interval: its `quantity`, or 0.0 when
      the meter has no series, the series is too short, or the quantity is absent. */
  function BaseValue(input: InputData, id: string, idx: nat): real
  {
    var k := FindSeries(input, id);
    if k < |input| && idx < |input[k].intervals| then input[k].intervals[idx].quantity.GetOr(0.0)
    else 0.0
  }

  /** `melo.get(name, {}).get('percentvalue', default)` */
  function FactorOr(f: Option<PercentField>, default: real): real
  {
    if f.Some? && f.value.percentvalue.Some? then f.value.percentvalue.value else default
  }

  /** Multiplication as a named term, so that products built step by step
      are matched as terms rather than by nonlinear arithmetic. */
  function Times(a: real, b: real): real
  {
    a * b
  }

  /** A reading reduced by the transformer and conduction losses and scaled by
      the distribution factor. */
  function MeterValue(base: real, transformerLoss: real, conductionLoss: real, distribution: real): real
  {
    Times(Times(Times(base, 1.0 - transformerLoss), 1.0 - conductionLoss), distribution)
  }

  function MeloValue(m: MeloOperand, input: InputData, idx: nat): Value
  {
    if m.meloId.None? then Err(MissingKey("meloId"))
    else Ok(MeterValue(BaseValue(input, m.meloId.value, idx),
                       FactorOr(m.lossFactorTransformer, 0.0),
                       FactorOr(m.lossFactorConduction, 0.0),
                       FactorOr(m.distributionFactorEnergyQuantity, 1.0)))
  }

  /** `float(const)`, read exactly. */
  function ConstOperandValue(c: string): Value
  {
    match ParseConst(c)
    case Some(p) => Ok(ConstValue(p))
    case None => Err(InvalidConst(c))
  }

  // ---------------------------------------------------------------------
  // Folds over the operand values of a list
  // ---------------------------------------------------------------------

  /** `total += v` for each value in turn, stopping at the first error. */
  function SumResults(acc: real, rs: seq<Value>): Value
    decreases |rs|
  {
    if rs == [] then Ok(acc)
    else if rs[0].Err? then rs[0]
    else SumResults(acc + rs[0].value, rs[1..])
  }

  /** `result *= v` for each value in turn, stopping at the first error. */
  function ProductResults(acc: real, rs: seq<Value>): Value
    decreases |rs|
  {
    if rs == [] then Ok(acc)
    else if rs[0].Err? then rs[0]
    else ProductResults(Times(acc, rs[0].value), rs[1..])
  }

  /** `result /= divisor` for each divisor in turn; an error stops the fold,
      and so does a zero divisor, which makes the whole result 0.0. */
  function DivResults(acc: real, rs: seq<Value>): Value
    decreases |rs|
  {
    if rs == [] then Ok(acc)
    else if rs[0].Err? then rs[0]
    else if rs[0].value == 0.0 then Ok(0.0)
    else DivResults(acc / rs[0].value, rs[1..])
  }

  // ---------------------------------------------------------------------
  // The interpreter
  // ---------------------------------------------------------------------

  /** The operation the interpreter runs: the first truthy one in the order
      add, sub, mul, div, pos, operand. Empty lists are falsy. */
  datatype Operation = AddOp | SubOp | MulOp | DivOp | PosOp | OperandOp | NoOp

  predicate IsTruthyOperand(o: Option<Operand>)
  {
    o.Some? && o.value.IsTruthy()
  }

  predicate IsTruthySub(f: CalculationFormula)
  {
    f.sub.Some? && f.sub.value.IsTruthy()
  }

  /** The first truthy operation wins; `NoOp` exactly when none is truthy. */
  function ChosenOperation(f: CalculationFormula): (op: Operation)
    ensures op == AddOp <==> f.add.IsTruthy()
    ensures op == SubOp <==> !f.add.IsTruthy() && IsTruthySub(f)
    ensures op == MulOp <==> !f.add.IsTruthy() && !IsTruthySub(f) && f.mul.IsTruthy()
    ensures op == DivOp <==> !f.add.IsTruthy() && !IsTruthySub(f) && !f.mul.IsTruthy() && f.div.IsTruthy()
    ensures op == PosOp <==>
      !f.add.IsTruthy() && !IsTruthySub(f) && !f.mul.IsTruthy() && !f.div.IsTruthy() && IsTruthyOperand(f.pos)
    ensures op == OperandOp <==>
      && !f.add.IsTruthy() && !IsTruthySub(f) && !f.mul.IsTruthy() && !f.div.IsTruthy() && !IsTruthyOperand(f.pos)
      && IsTruthyOperand(f.operand)
    ensures op == NoOp <==>
      && !f.add.IsTruthy() && !IsTruthySub(f) && !f.mul.IsTruthy() && !f.div.IsTruthy() && !IsTruthyOperand(f.pos)
      && !IsTruthyOperand(f.operand)
  {
    if f.add.IsTruthy() then AddOp
    else if IsTruthySub(f) then SubOp
    else if f.mul.IsTruthy() then MulOp
    else if f.div.IsTruthy() then DivOp
    else if IsTruthyOperand(f.pos) then PosOp
    else if IsTruthyOperand(f.operand) then OperandOp
    else NoOp
  }

  function OperandValue(o: Operand, input: InputData, idx: nat): Value
    decreases o
  {
    if o.meloOperand.Some? && o.meloOperand.value.IsTruthy() then MeloValue(o.meloOperand.value, input, idx)
    else if o.constValue.Some? then ConstOperandValue(o.constValue.value)
    else if IsTruthyText(o.formulaVar) then Ok(0.0)
    else if o.calculationFormula.Some? && o.calculationFormula.value.IsTruthy() then
      FormulaValue(o.calculationFormula.value, input, idx)
    else Ok(0.0)
  }

  /** The value of each operand of a list, in list order. */
  function OperandResults(ops: seq<Operand>, input: InputData, idx: nat): (rs: seq<Value>)
    decreases ops
  {
    seq(|ops|, i requires 0 <= i < |ops| => OperandValue(ops[i], input, idx))
  }

  function SubValue(s: SubOperation, input: InputData, idx: nat): Value
    decreases s
  {
    if s.minuend.None? then Err(MissingKey("minuend"))
    else
      var a := OperandValue(s.minuend.value, input, idx);
      if a.Err? then a
      else if s.subtrahend.None? then Err(MissingKey("subtrahend"))
      else
        var b := OperandValue(s.subtrahend.value, input, idx);
        if b.Err? then b else Ok(a.value - b.value)
  }

  function Abs(x: real): real
  {
    if x < 0.0 then -x else x
  }

  function FormulaValue(f: CalculationFormula, input: InputData, idx: nat): Value
    decreases f
  {
    match ChosenOperation(f)
    case AddOp => SumResults(0.0, OperandResults(f.add.operands, input, idx))
    case SubOp => SubValue(f.sub.value, input, idx)
    case MulOp => ProductResults(1.0, OperandResults(f.mul.operands, input, idx))
    case DivOp =>
      var rs := OperandResults(f.div.operands, input, idx);
      if rs[0].Err? then rs[0] else DivResults(rs[0].value, rs[1..])
    case PosOp =>
      var v := OperandValue(f.pos.value, input, idx);
      if v.Err? then v else Ok(Abs(v.value))
    case OperandOp => OperandValue(f.operand.value, input, idx)
    case NoOp => Ok(0.0)
  }

  // ---------------------------------------------------------------------
  // Reference arithmetic and the meaning of each operator
  // ---------------------------------------------------------------------

  /** Reference sum, folded from the right. */
  function Sum(vs: seq<real>): real
  {
    if vs == [] then 0.0 else vs[0] + Sum(vs[1..])
  }

  /** Reference product, folded from the right. */
  function Product(vs: seq<real>): real
  {
    if vs == [] then 1.0 else Times(vs[0], Product(vs[1..]))
  }

  predicate AllOk(rs: seq<Value>)
  {
    forall i :: 0 <= i < |rs| ==> rs[i].Ok?
  }

  function Values(rs: seq<Value>): (vs: seq<real>)
    requires AllOk(rs)
    ensures |vs| == |rs| && forall i :: 0 <= i < |rs| ==> vs[i] == rs[i].value
  {
    seq(|rs|, i requires 0 <= i < |rs| => rs[i].value)
  }

  lemma {:induction false} SumOfValues(acc: real, rs: seq<Value>)
    requires AllOk(rs)
    ensures SumResults(acc, rs) == Ok(acc + Sum(Values(rs)))
    decreases |rs|
  {
    if rs != [] {
      SumOfValues(acc + rs[0].value, rs[1..]);
      assert Values(rs[1..]) == Values(rs)[1..];
    }
  }

  lemma {:induction false} ProductOfValues(acc: real, rs: seq<Value>)
    requires AllOk(rs)
    ensures ProductResults(acc, rs).Ok?
    ensures ProductResults(acc, rs).value == Times(acc, Product(Values(rs)))
    decreases |rs|
  {
    if rs != [] {
      ProductOfValues(Times(acc, rs[0].value), rs[1..]);
      assert Values(rs[1..]) == Values(rs)[1..];
      TimesAssoc(acc, rs[0].value, Product(Values(rs[1..])));
    } else {
      assert Values(rs) == [];
    }
  }

  lemma TimesAssoc(a: real, b: real, c: real)
    ensures Times(Times(a, b), c) == Times(a, Times(b, c))
  {
  }

  /** `(a / d) / p == a / (d * p)` for non-zero divisors. */
  lemma DivideTwice(a: real, d: real, p: real)
    requires d != 0.0 && p != 0.0
    ensures a / d / p == a / Times(d, p)
  {
    assert a / d / p * (d * p) == a;
  }

  lemma {:induction false} ProductNonZero(vs: seq<real>)
    requires forall i :: 0 <= i < |vs| ==> vs[i] != 0.0
    ensures Product(vs) != 0.0
    decreases |vs|
  {
    if vs != [] {
      ProductNonZero(vs[1..]);
    }
  }

  lemma {:induction false} QuotientOfValues(acc: real, rs: seq<Value>)
    requires AllOk(rs)
    requires forall i :: 0 <= i < |rs| ==> rs[i].value != 0.0
    ensures Product(Values(rs)) != 0.0
    ensures DivResults(acc, rs).Ok?
    ensures DivResults(acc, rs).value == acc / Product(Values(rs))
    decreases |rs|
  {
    ProductNonZero(Values(rs));
    if rs != [] {
      QuotientOfValues(acc / rs[0].value, rs[1..]);
      assert Values(rs[1..]) == Values(rs)[1..];
      DivideTwice(acc, rs[0].value, Product(Values(rs[1..])));
    } else {
      assert Values(rs) == [];
    }
  }

  /** The first error of a list is the error of the whole fold. */
  lemma {:induction false} FirstErrorWins(acc: real, rs: seq<Value>, k: nat)
    requires k < |rs| && rs[k].Err?
    requires forall j :: 0 <= j < k ==> rs[j].Ok?
    ensures SumResults(acc, rs) == rs[k]
    ensures ProductResults(acc, rs) == rs[k]
    decreases k
  {
    if k > 0 {
      FirstErrorWins(acc + rs[0].value, rs[1..], k - 1);
      FirstErrorWins(Times(acc, rs[0].value), rs[1..], k - 1);
    }
  }

  /** The first zero divisor makes a division 0.0, even when a later divisor
      would fail: the interpreter never evaluates it. */
  lemma {:induction false} ZeroDivisorGivesZero(acc: real, rs: seq<Value>, k: nat)
    requires k < |rs| && rs[k] == Ok(0.0)
    requires forall j :: 0 <= j < k ==> rs[j].Ok? && rs[j].value != 0.0
    ensures DivResults(acc, rs) == Ok(0.0)
    decreases k
  {
    if k > 0 {
      ZeroDivisorGivesZero(acc / rs[0].value, rs[1..], k - 1);
    }
  }

  /** `add` is the sum of its operands. */
  lemma AddIsSum(f: CalculationFormula, input: InputData, idx: nat)
    requires ChosenOperation(f) == AddOp
    requires AllOk(OperandResults(f.add.operands, input, idx))
    ensures FormulaValue(f, input, idx) == Ok(Sum(Values(OperandResults(f.add.operands, input, idx))))
  {
    SumOfValues(0.0, OperandResults(f.add.operands, input, idx));
  }

  /** `mul` is the product of its operands. */
  lemma MulIsProduct(f: CalculationFormula, input: InputData, idx: nat)
    requires ChosenOperation(f) == MulOp
    requires AllOk(OperandResults(f.mul.operands, input, idx))
    ensures FormulaValue(f, input, idx).Ok?
    ensures FormulaValue(f, input, idx).value == Product(Values(OperandResults(f.mul.operands, input, idx)))
  {
    ProductOfValues(1.0, OperandResults(f.mul.operands, input, idx));
  }

  /** `div` divides the first operand by the product of the others, left to
      right, when no divisor is zero. */
  lemma DivIsQuotient(f: CalculationFormula, input: InputData, idx: nat)
    requires ChosenOperation(f) == DivOp
    requires AllOk(OperandResults(f.div.operands, input, idx))
    requires forall i :: 1 <= i < |f.div.operands| ==> OperandResults(f.div.operands, input, idx)[i].value != 0.0
    ensures FormulaValue(f, input, idx).Ok?
    ensures var vs := Values(OperandResults(f.div.operands, input, idx));
      Product(vs[1..]) != 0.0 && FormulaValue(f, input, idx).value == vs[0] / Product(vs[1..])
  {
    var rs := OperandResults(f.div.operands, input, idx);
    QuotientOfValues(rs[0].value, rs[1..]);
    assert Values(rs[1..]) == Values(rs)[1..];
  }

  /** A zero divisor makes `div` 0.0 instead of raising. */
  lemma DivByZeroIsZero(f: CalculationFormula, input: InputData, idx: nat, k: nat)
    requires ChosenOperation(f) == DivOp
    requires 1 <= k < |f.div.operands|
    requires OperandResults(f.div.operands, input, idx)[k] == Ok(0.0)
    requires forall j :: 0 <= j < k ==> OperandResults(f.div.operands, input, idx)[j].Ok?
    requires forall j :: 1 <= j < k ==> OperandResults(f.div.operands, input, idx)[j].value != 0.0
    ensures FormulaValue(f, input, idx) == Ok(0.0)
  {
    var rs := OperandResults(f.div.operands, input, idx);
    ZeroDivisorGivesZero(rs[0].value, rs[1..], k - 1);
  }

  /** `sub` is minuend minus subtrahend. */
  lemma SubIsDifference(f: CalculationFormula, input: InputData, idx: nat, a: real, b: real)
    requires ChosenOperation(f) == SubOp
    requires f.sub.value.minuend.Some? && OperandValue(f.sub.value.minuend.value, input, idx) == Ok(a)
    requires f.sub.value.subtrahend.Some? && OperandValue(f.sub.value.subtrahend.value, input, idx) == Ok(b)
    ensures FormulaValue(f, input, idx) == Ok(a - b)
  {
  }

  /** `pos` is the absolute value, so never negative. */
  lemma PosIsAbs(f: CalculationFormula, input: InputData, idx: nat)
    requires ChosenOperation(f) == PosOp
    requires OperandValue(f.pos.value, input, idx).Ok?
    ensures FormulaValue(f, input, idx).Ok? && FormulaValue(f, input, idx).value >= 0.0
    ensures var v := OperandValue(f.pos.value, input, idx).value;
      FormulaValue(f, input, idx).value == v || FormulaValue(f, input, idx).value == -v
  {
  }

  /** Empty add/mul/div lists are falsy: a formula whose only operation is an
      empty list evaluates to 0.0 (an empty `mul` gives 0.0, not 1.0). */
  lemma EmptyListIsZero(f: CalculationFormula, input: InputData, idx: nat)
    requires f.add == Present([]) || f.add.Absent?
    requires f.mul == Present([]) || f.mul.Absent?
    requires f.div == Present([]) || f.div.Absent?
    requires f.sub.None? && f.pos.None? && f.operand.None?
    ensures FormulaValue(f, input, idx) == Ok(0.0)
  {
  }

  // ---------------------------------------------------------------------
  // Meter operands: bounds
  // ---------------------------------------------------------------------

  lemma ScaleWithin(x: real, k: real)
    requires 0.0 <= k <= 1.0
    ensures Abs(Times(x, k)) <= Abs(x)
    ensures x >= 0.0 ==> 0.0 <= Times(x, k) <= x
  {
    var y := Times(x, k);
    assert y == x * k;
    if x >= 0.0 {
      assert 0.0 <= y <= x by {
        assert x * k <= x * 1.0;
      }
      assert Abs(y) == y && Abs(x) == x;
    } else {
      assert x <= y <= 0.0 by {
        assert x * k >= x * 1.0;
      }
      assert Abs(y) == -y && Abs(x) == -x;
    }
  }

  /** With loss and distribution factors in [0, 1], a meter value never
      exceeds its reading in magnitude, and a non-negative reading stays in
      [0, reading]. */
  lemma MeterValueWithinBase(base: real, t: real, c: real, d: real)
    requires 0.0 <= t <= 1.0 && 0.0 <= c <= 1.0 && 0.0 <= d <= 1.0
    ensures Abs(MeterValue(base, t, c, d)) <= Abs(base)
    ensures base >= 0.0 ==> 0.0 <= MeterValue(base, t, c, d) <= base
  {
    var x1 := Times(base, 1.0 - t);
    var x2 := Times(x1, 1.0 - c);
    ScaleWithin(base, 1.0 - t);
    ScaleWithin(x1, 1.0 - c);
    ScaleWithin(x2, d);
  }

  /** The reading of a meter comes from the first series with its id: the
      quantity at the index, or 0.0 past the end of that series or when the
      quantity is absent. */
  lemma SeriesReading(input: InputData, id: string, idx: nat, j: nat)
    requires j < |input| && input[j].meloId == id
    requires forall i :: 0 <= i < j ==> input[i].meloId != id
    ensures BaseValue(input, id, idx) ==
      if idx < |input[j].intervals| then input[j].intervals[idx].quantity.GetOr(0.0) else 0.0
  {
    assert FindSeries(input, id) == j;
  }

  /** A meter operand the validator accepts whose meter has no input series
      evaluates to 0.0, whatever its factors. */
  lemma MissingSeriesIsZero(m: MeloOperand, input: InputData, idx: nat)
    requires WellFormedMeloOperand(m)
    requires forall j :: 0 <= j < |input| ==> input[j].meloId != m.meloId.value
    ensures OperandValue(Operand(Some(m), None, None, None), input, idx) == Ok(0.0)
  {
    var k := FindSeries(input, m.meloId.value);
    assert k == |input|;
    assert BaseValue(input, m.meloId.value, idx) == 0.0;
    assert Times(0.0, 1.0 - FactorOr(m.lossFactorTransformer, 0.0)) == 0.0;
  }

  /** A meter operand the validator accepts evaluates, and its value is its
      reading scaled into [0, reading]. */
  lemma ValidMeloWithinBase(m: MeloOperand, input: InputData, idx: nat)
    requires WellFormedMeloOperand(m)
    ensures MeloValue(m, input, idx).Ok?
    ensures Abs(MeloValue(m, input, idx).value) <= Abs(BaseValue(input, m.meloId.value, idx))
    ensures BaseValue(input, m.meloId.value, idx) >= 0.0 ==>
      0.0 <= MeloValue(m, input, idx).value <= BaseValue(input, m.meloId.value, idx)
  {
    MeterValueWithinBase(BaseValue(input, m.meloId.value, idx),
      FactorOr(m.lossFactorTransformer, 0.0),
      FactorOr(m.lossFactorConduction, 0.0),
      FactorOr(m.distributionFactorEnergyQuantity, 1.0));
  }

  // ---------------------------------------------------------------------
  // Validated formulas always evaluate
  // ---------------------------------------------------------------------

  lemma {:induction false} ValidOperandEvaluates(o: Operand, input: InputData, idx: nat)
    requires WellFormedOperand(o)
    ensures OperandValue(o, input, idx).Ok?
    decreases o
  {
    match o
    case Operand(Some(m), None, None, None) =>
    case Operand(None, Some(c), None, None) =>
    case Operand(None, None, Some(v), None) =>
    case Operand(None, None, None, Some(f)) =>
      ValidFormulaEvaluates(f, input, idx);
  }

  lemma {:induction false} ValidOperandsEvaluate(ops: seq<Operand>, input: InputData, idx: nat)
    requires WellFormedOperands(ops)
    ensures AllOk(OperandResults(ops, input, idx))
    decreases ops
  {
    var rs := OperandResults(ops, input, idx);
    forall i | 0 <= i < |ops|
      ensures rs[i].Ok?
    {
      ValidOperandEvaluates(ops[i], input, idx);
    }
  }

  /** A formula the validator accepts raises no exception on input series
      with numeric quantities: every meter operand has
      its meloId, every constant reads as a number, and every `sub` has both halves. */
  lemma {:induction false} ValidFormulaEvaluates(f: CalculationFormula, input: InputData, idx: nat)
    requires WellFormedFormula(f)
    ensures FormulaValue(f, input, idx).Ok?
    decreases f
  {
    match f
    case CalculationFormula(Present(ops), None, Absent, Absent, None, None) =>
      ValidOperandsEvaluate(ops, input, idx);
      if |ops| > 0 { SumOfValues(0.0, OperandResults(ops, input, idx)); }
    case CalculationFormula(Absent, Some(s), Absent, Absent, None, None) =>
      ValidOperandEvaluates(s.minuend.value, input, idx);
      ValidOperandEvaluates(s.subtrahend.value, input, idx);
    case CalculationFormula(Absent, None, Present(ops), Absent, None, None) =>
      ValidOperandsEvaluate(ops, input, idx);
      if |ops| > 0 { ProductOfValues(1.0, OperandResults(ops, input, idx)); }
    case CalculationFormula(Absent, None, Absent, Present(ops), None, None) =>
      ValidOperandsEvaluate(ops, input, idx);
      if |ops| > 0 { DivEvaluates(OperandResults(ops, input, idx)); }
    case CalculationFormula(Absent, None, Absent, Absent, Some(p), None) =>
      ValidOperandEvaluates(p, input, idx);
    case CalculationFormula(Absent, None, Absent, Absent, None, Some(p)) =>
      ValidOperandEvaluates(p, input, idx);
  }

  /** A division whose operands all evaluate does not fail. */
  lemma DivEvaluates(rs: seq<Value>)
    requires |rs| > 0 && AllOk(rs)
    ensures DivResults(rs[0].value, rs[1..]).Ok?
  {
    NoErrorDivides(rs[0].value, rs[1..]);
  }

  lemma {:induction false} NoErrorDivides(acc: real, rs: seq<Value>)
    requires AllOk(rs)
    ensures DivResults(acc, rs).Ok?
    decreases |rs|
  {
    if rs != [] && rs[0].value != 0.0 {
      NoErrorDivides(acc / rs[0].value, rs[1..]);
    }
  }

  // ---------------------------------------------------------------------
  // A whole time slice
  // ---------------------------------------------------------------------

  /** One interval of a calculated output series. The quantity is kept as the
      exact value; the server renders it with six decimals. */
  datatype OutputInterval = OutputInterval(position: nat, start: string, end: string, quantity: real, quality: string)

  /** The formula's value at every interval index below `n`. */
  function FormulaResults(f: CalculationFormula, input: InputData, n: nat): (rs: seq<Value>)
  {
    seq(n, i requires 0 <= i < n => FormulaValue(f, input, i))
  }

  /** Index of the first failing value, or `|rs|` when none fails. */
  function FirstError(rs: seq<Value>): (k: nat)
    ensures k <= |rs|
    ensures forall j :: 0 <= j < k ==> rs[j].Ok?
    ensures k < |rs| ==> rs[k].Err?
  {
    if |rs| == 0 then 0
    else if rs[0].Err? then 0
    else 1 + FirstError(rs[1..])
  }

  /** The quality every output interval carries: the slice's own, or valid data. */
  function SliceQuality(ts: TimeSlice): string
  {
    ts.timeSliceQuality.GetOr(ValidData)
  }

  /** Output intervals for the values `vs`, timed by the first input series. */
  function OutputIntervals(vs: seq<real>, timing: seq<InputInterval>, quality: string): (out: seq<OutputInterval>)
    requires |vs| <= |timing|
  {
    seq(|vs|, i requires 0 <= i < |vs| =>
      OutputInterval(i + 1, timing[i].start.GetOr(""), timing[i].end.GetOr(""), vs[i], quality))
  }

  /** What calculating a time slice yields: one output interval per interval
      of the first input series, or the exception of the first interval whose
      value cannot be computed. A slice without a formula raises at once; no
      input at all gives no intervals. */
  function TimeSliceResult(ts: TimeSlice, input: InputData): Result<seq<OutputInterval>, EvalError>
  {
    if ts.calculationFormula.None? then Err(MissingKey("calculationFormula"))
    else if |input| == 0 then Ok([])
    else
      var rs := FormulaResults(ts.calculationFormula.value, input, |input[0].intervals|);
      var k := FirstError(rs);
      if k < |rs| then Err(rs[k].error)
      else Ok(OutputIntervals(Values(rs), input[0].intervals, SliceQuality(ts)))
  }

  /** A successful calculation has one interval per interval of the first
      input series, numbered from 1, timed by that series, valued by the
      formula at that index and labelled with the slice's quality. */
  lemma TimeSliceIntervals(ts: TimeSlice, input: InputData)
    requires ts.calculationFormula.Some? && |input| > 0
    requires TimeSliceResult(ts, input).Ok?
    ensures var out := TimeSliceResult(ts, input).value;
      && |out| == |input[0].intervals|
      && forall i :: 0 <= i < |out| ==>
           && out[i].position == i + 1
           && out[i].start == input[0].intervals[i].start.GetOr("")
           && out[i].end == input[0].intervals[i].end.GetOr("")
           && FormulaValue(ts.calculationFormula.value, input, i) == Ok(out[i].quantity)
           && out[i].quality == SliceQuality(ts)
  {
  }

  /** A calculation fails exactly when the formula fails at some interval,
      and then with the error of the first such interval. */
  lemma TimeSliceFailure(ts: TimeSlice, input: InputData, k: nat)
    requires ts.calculationFormula.Some? && |input| > 0
    requires k < |input[0].intervals|
    requires FormulaValue(ts.calculationFormula.value, input, k).Err?
    requires forall j :: 0 <= j < k ==> FormulaValue(ts.calculationFormula.value, input, j).Ok?
    ensures TimeSliceResult(ts, input) == Err(FormulaValue(ts.calculationFormula.value, input, k).error)
  {
    var rs := FormulaResults(ts.calculationFormula.value, input, |input[0].intervals|);
    assert rs[k].Err?;
  }

  /** A time slice the validator accepts always calculates on input series
      with numeric quantities. */
  lemma ValidSliceCalculates(ts: TimeSlice, input: InputData, isIsoDateTime: string -> bool)
    requires WellFormedTimeSlice(ts, isIsoDateTime)
    ensures TimeSliceResult(ts, input).Ok?
  {
    if |input| > 0 {
      var f := ts.calculationFormula.value;
      var rs := FormulaResults(f, input, |input[0].intervals|);
      forall i | 0 <= i < |rs|
        ensures rs[i].Ok?
      {
        ValidFormulaEvaluates(f, input, i);
      }
    }
  }
}

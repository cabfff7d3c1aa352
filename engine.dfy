/** The server's formula interpreter as it runs: recursive calls over the
    formula tree, accumulating loops over add/mul/div lists that stop at the
    first exception (and, for `div`, at the first zero divisor), and the loop
    that calculates a time slice interval by interval. Each method is proved
    to compute the function of module `Evaluation` that specifies it; an
    exception is returned as an `Err` value. */
module Engine {
  import opened Wrappers
  import opened FormulaTypes
  import opened Evaluation

  method ExecuteOperand(o: Operand, input: InputData, idx: nat) returns (r: Value)
    ensures r == OperandValue(o, input, idx)
    decreases o
  {
    if o.meloOperand.Some? && o.meloOperand.value.IsTruthy() {
      var melo := o.meloOperand.value;
      if melo.meloId.None? {
        return Err(MissingKey("meloId"));
      }
      var id := melo.meloId.value;
      var k := FindSeries(input, id);
      var base := 0.0;
      if k < |input| && idx < |input[k].intervals| {
        base := input[k].intervals[idx].quantity.GetOr(0.0);
      }
      var transformerLoss := FactorOr(melo.lossFactorTransformer, 0.0);
      var conductionLoss := FactorOr(melo.lossFactorConduction, 0.0);
      var distribution := FactorOr(melo.distributionFactorEnergyQuantity, 1.0);
      r := Ok(MeterValue(base, transformerLoss, conductionLoss, distribution));
    } else if o.constValue.Some? {
      r := ConstOperandValue(o.constValue.value);
    } else if IsTruthyText(o.formulaVar) {
      r := Ok(0.0);
    } else if o.calculationFormula.Some? && o.calculationFormula.value.IsTruthy() {
      r := ExecuteCalculationFormula(o.calculationFormula.value, input, idx);
    } else {
      r := Ok(0.0);
    }
  }

  method ExecuteCalculationFormula(f: CalculationFormula, input: InputData, idx: nat) returns (r: Value)
    ensures r == FormulaValue(f, input, idx)
    decreases f
  {
    if f.add.IsTruthy() {
      r := SumOperands(f.add.operands, input, idx);
    } else if f.sub.Some? && f.sub.value.IsTruthy() {
      var s := f.sub.value;
      if s.minuend.None? {
        return Err(MissingKey("minuend"));
      }
      var minuend := ExecuteOperand(s.minuend.value, input, idx);
      if minuend.Err? {
        return minuend;
      }
      if s.subtrahend.None? {
        return Err(MissingKey("subtrahend"));
      }
      var subtrahend := ExecuteOperand(s.subtrahend.value, input, idx);
      if subtrahend.Err? {
        return subtrahend;
      }
      r := Ok(minuend.value - subtrahend.value);
    } else if f.mul.IsTruthy() {
      r := MultiplyOperands(f.mul.operands, input, idx);
    } else if f.div.IsTruthy() {
      r := DivideOperands(f.div.operands, input, idx);
    } else if IsTruthyOperand(f.pos) {
      var v := ExecuteOperand(f.pos.value, input, idx);
      if v.Err? {
        return v;
      }
      r := Ok(Abs(v.value));
    } else if IsTruthyOperand(f.operand) {
      r := ExecuteOperand(f.operand.value, input, idx);
    } else {
      r := Ok(0.0);
    }
  }

  /** `total += execute_operand(...)` over an `add` list, starting from 0.0. */
  method SumOperands(ops: seq<Operand>, input: InputData, idx: nat) returns (r: Value)
    ensures r == SumResults(0.0, OperandResults(ops, input, idx))
    decreases ops
  {
    ghost var rs := OperandResults(ops, input, idx);
    var total := 0.0;
    var i := 0;
    while i < |ops|
      invariant 0 <= i <= |ops|
      invariant SumResults(0.0, rs) == SumResults(total, rs[i..])
    {
      var v := ExecuteOperand(ops[i], input, idx);
      assert rs[i..][0] == v && rs[i..][1..] == rs[i + 1..];
      if v.Err? {
        return v;
      }
      total := total + v.value;
      i := i + 1;
    }
    r := Ok(total);
  }

  /** `result *= execute_operand(...)` over a `mul` list, starting from 1.0. */
  method MultiplyOperands(ops: seq<Operand>, input: InputData, idx: nat) returns (r: Value)
    ensures r == ProductResults(1.0, OperandResults(ops, input, idx))
    decreases ops
  {
    ghost var rs := OperandResults(ops, input, idx);
    var result := 1.0;
    var i := 0;
    while i < |ops|
      invariant 0 <= i <= |ops|
      invariant ProductResults(1.0, rs) == ProductResults(result, rs[i..])
    {
      var v := ExecuteOperand(ops[i], input, idx);
      assert rs[i..][0] == v && rs[i..][1..] == rs[i + 1..];
      if v.Err? {
        return v;
      }
      result := Times(result, v.value);
      i := i + 1;
    }
    r := Ok(result);
  }

  /** A `div` list: the first operand divided by each further one in turn;
      a zero divisor ends the loop with 0.0. The list is never empty here,
      since an empty list is not chosen as the operation. */
  method DivideOperands(ops: seq<Operand>, input: InputData, idx: nat) returns (r: Value)
    requires |ops| > 0
    ensures var rs := OperandResults(ops, input, idx);
      r == if rs[0].Err? then rs[0] else DivResults(rs[0].value, rs[1..])
    decreases ops
  {
    ghost var rs := OperandResults(ops, input, idx);
    var first := ExecuteOperand(ops[0], input, idx);
    if first.Err? {
      return first;
    }
    var result := first.value;
    var i := 1;
    while i < |ops|
      invariant 1 <= i <= |ops|
      invariant DivResults(rs[0].value, rs[1..]) == DivResults(result, rs[i..])
    {
      var divisor := ExecuteOperand(ops[i], input, idx);
      assert rs[i..][0] == divisor && rs[i..][1..] == rs[i + 1..];
      if divisor.Err? {
        return divisor;
      }
      if divisor.value == 0.0 {
        return Ok(0.0);
      }
      result := result / divisor.value;
      i := i + 1;
    }
    r := Ok(result);
  }

  /** Calculates every interval of a time slice, appending each output
      interval once its value is known. */
  method CalculateTimeSlice(ts: TimeSlice, input: InputData) returns (r: Result<seq<OutputInterval>, EvalError>)
    ensures r == TimeSliceResult(ts, input)
  {
    if ts.calculationFormula.None? {
      return Err(MissingKey("calculationFormula"));
    }
    var formula := ts.calculationFormula.value;
    if |input| == 0 {
      return Ok([]);
    }
    var timing := input[0].intervals;
    ghost var rs := FormulaResults(formula, input, |timing|);
    var out: seq<OutputInterval> := [];
    var i := 0;
    while i < |timing|
      invariant 0 <= i <= |timing|
      invariant forall j :: 0 <= j < i ==> rs[j].Ok?
      invariant |out| == i
      invariant forall j :: 0 <= j < i ==>
        out[j] == OutputInterval(j + 1, timing[j].start.GetOr(""), timing[j].end.GetOr(""), rs[j].value, SliceQuality(ts))
    {
      var v := ExecuteCalculationFormula(formula, input, i);
      if v.Err? {
        assert FirstError(rs) == i by {
          assert rs[i].Err?;
        }
        return Err(v.error);
      }
      out := out + [OutputInterval(i + 1, timing[i].start.GetOr(""), timing[i].end.GetOr(""), v.value, SliceQuality(ts))];
      i := i + 1;
    }
    assert FirstError(rs) == |rs|;
    assert out == OutputIntervals(Values(rs), timing, SliceQuality(ts));
    r := Ok(out);
  }
}

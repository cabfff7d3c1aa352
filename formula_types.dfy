/** The loosely shaped JSON documents of the formula interchange, as the server
    receives them: every key may be absent (`None`), so that a union with no or
    several variants, or a record missing a required field, can be represented
    and rejected by the validator. Field names follow the interchange format;
    `const` is a reserved word here and is spelled `constValue`. */
module FormulaTypes {
  import opened Wrappers

  /** `{percentvalue: number}` */
  datatype PercentField = PercentField(percentvalue: Option<real>)

  /** `meloOperand`: a meter-location reading with its loss and distribution factors. */
  datatype MeloOperand = MeloOperand(
    meloId: Option<string>,
    energyDirection: Option<string>,
    lossFactorTransformer: Option<PercentField>,
    lossFactorConduction: Option<PercentField>,
    distributionFactorEnergyQuantity: Option<PercentField>)
  {
    /** A JSON object is truthy when it has a key. */
    predicate IsTruthy()
    {
      meloId.Some? || energyDirection.Some? || lossFactorTransformer.Some?
      || lossFactorConduction.Some? || distributionFactorEnergyQuantity.Some?
    }
  }

  /** An operand: one of a meter operand, a constant, a formula variable or a nested formula. */
  datatype Operand = Operand(
    meloOperand: Option<MeloOperand>,
    constValue: Option<string>,
    formulaVar: Option<string>,
    calculationFormula: Option<CalculationFormula>)
  {
    predicate IsTruthy()
    {
      meloOperand.Some? || constValue.Some? || formulaVar.Some? || calculationFormula.Some?
    }
  }

  /** The array value of `add`, `mul` or `div`, or its absence. */
  datatype OperandList = Absent | Present(operands: seq<Operand>)
  {
    /** A JSON array is truthy when it is non-empty. */
    predicate IsTruthy()
    {
      Present? && |operands| > 0
    }
  }

  /** `sub`: `{minuend, subtrahend}` */
  datatype SubOperation = SubOperation(minuend: Option<Operand>, subtrahend: Option<Operand>)
  {
    predicate IsTruthy()
    {
      minuend.Some? || subtrahend.Some?
    }
  }

  /** A calculation formula: one of add, sub, mul, div, pos or operand. */
  datatype CalculationFormula = CalculationFormula(
    add: OperandList,
    sub: Option<SubOperation>,
    mul: OperandList,
    div: OperandList,
    pos: Option<Operand>,
    operand: Option<Operand>)
  {
    predicate IsTruthy()
    {
      add.Present? || sub.Some? || mul.Present? || div.Present? || pos.Some? || operand.Some?
    }
  }

  /** `calculationFormulaTimeSlice` */
  datatype TimeSlice = TimeSlice(
    timeSliceId: Option<int>,
    timeSliceQuality: Option<string>,
    periodOfUseFrom: Option<string>,
    periodOfUseTo: Option<string>,
    calculationFormula: Option<CalculationFormula>)

  /** The submitted body: a market or network location with its time slices. */
  datatype FormulaLocation = FormulaLocation(
    maloId: Option<string>,
    neloId: Option<string>,
    calculationFormulaTimeSlices: Option<seq<TimeSlice>>)

  /** A string value is truthy when present and non-empty. */
  predicate IsTruthyText(s: Option<string>)
  {
    s.Some? && s.value != ""
  }

  /** Python's `a or b` on two optional strings: `a` when it is truthy, otherwise `b`. */
  function PreferTruthy(a: Option<string>, b: Option<string>): (r: Option<string>)
    ensures IsTruthyText(r) <==> IsTruthyText(a) || IsTruthyText(b)
    ensures IsTruthyText(a) ==> r == a
    ensures !IsTruthyText(a) ==> r == b
  {
    if IsTruthyText(a) then a else b
  }

  /** `data.get('maloId') or data.get('neloId')`: the key a location is stored under. */
  function LocationKey(loc: FormulaLocation): Option<string>
  {
    PreferTruthy(loc.maloId, loc.neloId)
  }

  const ValidData: string := "Gültige Daten"
  const NoData: string := "Keine Daten"
  const Consumption: string := "consumption"
  const Production: string := "production"
}

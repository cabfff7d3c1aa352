/** The server's validators as it runs them: each builds its `errors` list
    step by step, appending messages and extending it with the prefixed errors
    of nested parts inside `for` loops. Each method is proved to return exactly
    the list that module `Validation` specifies. */
module Validator {
  import opened Wrappers
  import opened Text
  import opened Identifiers
  import opened Literals
  import opened FormulaTypes
  import opened Validation

  /** The required-field loop shared by meter operands and time slices. */
  method ReportMissing(lead: string, names: seq<string>, present: seq<bool>) returns (errors: seq<string>)
    requires |names| == |present|
    ensures errors == MissingFieldErrors(lead, names, present)
  {
    errors := [];
    var i := 0;
    while i < |names|
      invariant 0 <= i <= |names|
      invariant errors == MissingFieldErrors(lead, names[..i], present[..i])
    {
      assert names[..i + 1][..i] == names[..i] && present[..i + 1][..i] == present[..i];
      if !present[i] {
        errors := errors + [lead + names[i]];
      }
      i := i + 1;
    }
    assert names[..i] == names && present[..i] == present;
  }

  method ValidateMeloOperand(m: MeloOperand) returns (errors: seq<string>)
    ensures errors == MeloOperandErrors(m)
  {
    errors := ReportMissing(MeloMissingLead, MeloFields, MeloFieldsPresent(m));
    if m.meloId.Some? && !IsMeloId(m.meloId.value) {
      errors := errors + ["Invalid meloId format: " + m.meloId.value + ". Expected: DE + 11 digits + 20 alphanumeric"];
    }
    if m.energyDirection.Some? && !IsEnergyDirection(m.energyDirection.value) {
      errors := errors + ["Invalid energyDirection: " + m.energyDirection.value + ". Must be: consumption or production"];
    }
    var factorErrors := ReportFactors(FactorFields, Factors(m));
    errors := errors + factorErrors;
  }

  /** The loop over the three factor fields of a meter operand. */
  method ReportFactors(names: seq<string>, factors: seq<Option<PercentField>>) returns (errors: seq<string>)
    requires |names| == |factors|
    ensures errors == FactorErrors(names, factors)
  {
    errors := [];
    var i := 0;
    while i < |names|
      invariant 0 <= i <= |names|
      invariant errors == FactorErrors(names[..i], factors[..i])
    {
      assert names[..i + 1][..i] == names[..i] && factors[..i + 1][..i] == factors[..i];
      var name := names[i];
      var factor := factors[i];
      if factor.Some? {
        if factor.value.percentvalue.Some? {
          if !IsPercentValue(factor.value.percentvalue.value) {
            errors := errors + [name + ".percentvalue must be between 0.0 and 1.0"];
          }
        } else {
          errors := errors + [name + " must have percentvalue field"];
        }
      }
      i := i + 1;
    }
    assert names[..i] == names && factors[..i] == factors;
  }

  method ValidateOperand(o: Operand) returns (errors: seq<string>)
    ensures errors == OperandErrors(o)
    decreases o
  {
    var present := PresentOperandTypes(o);
    if |present| == 0 {
      errors := [NoOperandType];
    } else if |present| > 1 {
      errors := ["Operand must have exactly one type, found: " + ListRepr(present)];
    } else if o.meloOperand.Some? {
      errors := ValidateMeloOperand(o.meloOperand.value);
    } else if o.constValue.Some? {
      errors := [];
      if !IsConstLiteral(o.constValue.value) {
        errors := ["Invalid const value: " + o.constValue.value];
      }
    } else if o.formulaVar.Some? {
      errors := [];
      if !IsFormulaVar(o.formulaVar.value) {
        errors := ["formulaVar must start with a letter: " + o.formulaVar.value];
      }
    } else {
      errors := ValidateCalculationFormula(o.calculationFormula.value);
    }
  }

  /** The loop over an add/mul/div list: every operand is validated, and its
      errors are appended under `name[i]: `. */
  method ValidateOperandList(name: string, ops: seq<Operand>) returns (errors: seq<string>)
    ensures errors == IndexedErrors(name, OperandErrorLists(ops))
    decreases ops
  {
    ghost var lists := OperandErrorLists(ops);
    errors := [];
    var i := 0;
    while i < |ops|
      invariant 0 <= i <= |ops|
      invariant errors == IndexedErrors(name, lists[..i])
    {
      var opErrors := ValidateOperand(ops[i]);
      assert lists[..i + 1][..i] == lists[..i] && lists[..i + 1][i] == opErrors;
      errors := errors + Prefixed(IndexPrefix(name, i), opErrors);
      i := i + 1;
    }
    assert lists[..i] == lists;
  }

  method ValidateCalculationFormula(f: CalculationFormula) returns (errors: seq<string>)
    ensures errors == FormulaErrors(f)
    decreases f
  {
    var present := PresentOperations(f);
    if |present| == 0 {
      errors := [NoOperation];
    } else if |present| > 1 {
      errors := ["calculationFormula must have exactly one operation, found: " + ListRepr(present)];
    } else if f.add.Present? {
      errors := ValidateOperandList("add", f.add.operands);
    } else if f.sub.Some? {
      errors := ValidateSub(f.sub.value);
    } else if f.mul.Present? {
      errors := ValidateOperandList("mul", f.mul.operands);
    } else if f.div.Present? {
      errors := ValidateOperandList("div", f.div.operands);
    } else if f.pos.Some? {
      var e := ValidateOperand(f.pos.value);
      errors := Prefixed("pos: ", e);
    } else {
      errors := ValidateOperand(f.operand.value);
    }
  }

  method ValidateSub(s: SubOperation) returns (errors: seq<string>)
    ensures errors == SubErrors(s)
    decreases s
  {
    if s.minuend.None? {
      errors := ["sub operation missing minuend"];
    } else {
      var e := ValidateOperand(s.minuend.value);
      errors := Prefixed("sub.minuend: ", e);
    }
    if s.subtrahend.None? {
      errors := errors + ["sub operation missing subtrahend"];
    } else {
      var e := ValidateOperand(s.subtrahend.value);
      errors := errors + Prefixed("sub.subtrahend: ", e);
    }
  }

  method ValidateTimeSlice(ts: TimeSlice, isIsoDateTime: string -> bool) returns (errors: seq<string>)
    ensures errors == TimeSliceErrors(ts, isIsoDateTime)
  {
    errors := ReportMissing(TimeSliceMissingLead, TimeSliceFields, TimeSliceFieldsPresent(ts));
    if ts.timeSliceQuality.Some? && !IsQuality(ts.timeSliceQuality.value) {
      errors := errors + ["Invalid timeSliceQuality: " + ts.timeSliceQuality.value + ". Must be: Gültige Daten or Keine Daten"];
    }
    assert errors == MissingFieldErrors(TimeSliceMissingLead, TimeSliceFields, TimeSliceFieldsPresent(ts))
      + QualityErrors(ts.timeSliceQuality);
    var periodErrors := ReportPeriods(PeriodFields, Periods(ts), isIsoDateTime);
    errors := errors + periodErrors;
    if ts.calculationFormula.Some? {
      var e := ValidateCalculationFormula(ts.calculationFormula.value);
      errors := errors + e;
    }
  }

  /** The loop over the two period fields of a time slice. */
  method ReportPeriods(names: seq<string>, values: seq<Option<string>>, isIsoDateTime: string -> bool)
    returns (errors: seq<string>)
    requires |names| == |values|
    ensures errors == PeriodErrors(names, values, isIsoDateTime)
  {
    errors := [];
    var i := 0;
    while i < |names|
      invariant 0 <= i <= |names|
      invariant errors == PeriodErrors(names[..i], values[..i], isIsoDateTime)
    {
      assert names[..i + 1][..i] == names[..i] && values[..i + 1][..i] == values[..i];
      if values[i].Some? && !isIsoDateTime(values[i].value) {
        errors := errors + [names[i] + " must be ISO 8601 format"];
      }
      i := i + 1;
    }
    assert names[..i] == names && values[..i] == values;
  }

  /** The loop over the time slices of a location: every slice is validated,
      and its errors are appended under `timeSlice[i]: `. */
  method ValidateTimeSliceList(slices: seq<TimeSlice>, isIsoDateTime: string -> bool) returns (errors: seq<string>)
    ensures errors == IndexedErrors("timeSlice", TimeSliceErrorLists(slices, isIsoDateTime))
  {
    ghost var lists := TimeSliceErrorLists(slices, isIsoDateTime);
    errors := [];
    var i := 0;
    while i < |slices|
      invariant 0 <= i <= |slices|
      invariant errors == IndexedErrors("timeSlice", lists[..i])
    {
      var tsErrors := ValidateTimeSlice(slices[i], isIsoDateTime);
      assert lists[..i + 1][..i] == lists[..i] && lists[..i + 1][i] == tsErrors;
      errors := errors + Prefixed(IndexPrefix("timeSlice", i), tsErrors);
      i := i + 1;
    }
    assert lists[..i] == lists;
  }

  /** The request-body validator: its result is empty exactly when the
      location is well formed (lemma `Validation.LocationValid`). */
  method ValidateFormulaLocation(loc: FormulaLocation, isIsoDateTime: string -> bool) returns (errors: seq<string>)
    ensures errors == LocationErrors(loc, isIsoDateTime)
  {
    errors := [];
    var hasMalo := IsTruthyText(loc.maloId);
    var hasNelo := IsTruthyText(loc.neloId);
    if !hasMalo && !hasNelo {
      errors := errors + [NoLocationId];
    }
    if hasMalo && hasNelo {
      errors := errors + [BothLocationIds];
    }
    if hasMalo && !IsMaloId(loc.maloId.value) {
      errors := errors + [MaloIdError(loc.maloId.value)];
    }
    if hasNelo && !IsNeloId(loc.neloId.value) {
      errors := errors + [NeloIdError(loc.neloId.value)];
    }
    assert errors == LocationIdErrors(loc);
    if loc.calculationFormulaTimeSlices.None? {
      errors := errors + [NoTimeSlices];
    } else if |loc.calculationFormulaTimeSlices.value| == 0 {
      errors := errors + [EmptyTimeSlices];
    } else {
      var sliceErrors := ValidateTimeSliceList(loc.calculationFormulaTimeSlices.value, isIsoDateTime);
      errors := errors + sliceErrors;
    }
  }
}

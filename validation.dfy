/** What the server's structural validator reports for a submitted formula
    location: the exact list of error messages, in the order the server
    collects them, as functions of the document. Beside each error function
    stands a schema-style predicate (`WellFormed...`) saying, independently,
    what a valid document is; the lemmas prove that a document draws no error
    exactly when it is well formed, and that errors of nested parts are all
    collected with their path prefixes. The imperative validators in module
    `Validator` are proved to compute these lists. */
module Validation {
  import opened Wrappers
  import opened Text
  import opened Identifiers
  import opened Literals
  import opened FormulaTypes

  // ---------------------------------------------------------------------
  // Required fields
  // ---------------------------------------------------------------------

  /** `for field in required: if field not in obj: errors.append(lead + field)`:
      one message per absent field, in field order. */
  function MissingFieldErrors(lead: string, names: seq<string>, present: seq<bool>): seq<string>
    requires |names| == |present|
    decreases |names|
  {
    if |names| == 0 then []
    else
      MissingFieldErrors(lead, names[..|names| - 1], present[..|present| - 1])
      + (if present[|present| - 1] then [] else [lead + names[|names| - 1]])
  }

  lemma {:induction false} NoMissingFieldErrors(lead: string, names: seq<string>, present: seq<bool>)
    requires |names| == |present|
    ensures MissingFieldErrors(lead, names, present) == [] <==> forall i :: 0 <= i < |present| ==> present[i]
    decreases |names|
  {
    if |names| > 0 {
      var n := |names| - 1;
      NoMissingFieldErrors(lead, names[..n], present[..n]);
      assert forall i :: 0 <= i < n ==> present[..n][i] == present[i];
    }
  }

  /** With distinct field names, a field's message is reported exactly when that field is absent. */
  lemma {:induction false} MissingFieldReported(lead: string, names: seq<string>, present: seq<bool>, k: nat)
    requires |names| == |present| && k < |names|
    requires forall i, j :: 0 <= i < j < |names| ==> names[i] != names[j]
    ensures lead + names[k] in MissingFieldErrors(lead, names, present) <==> !present[k]
    decreases |names|
  {
    var n := |names| - 1;
    var rest := MissingFieldErrors(lead, names[..n], present[..n]);
    var last := if present[n] then [] else [lead + names[n]];
    assert MissingFieldErrors(lead, names, present) == rest + last;
    if k < n {
      MissingFieldReported(lead, names[..n], present[..n], k);
      assert names[..n][k] == names[k] && present[..n][k] == present[k];
      assert lead + names[k] != lead + names[n] by {
        assert (lead + names[k])[|lead|..] == names[k];
        assert (lead + names[n])[|lead|..] == names[n];
      }
    } else {
      MissingFieldsExcluded(lead, names[..n], present[..n], names[n]);
    }
  }

  /** Only the listed names can appear in the missing-field messages. */
  lemma {:induction false} MissingFieldsExcluded(lead: string, names: seq<string>, present: seq<bool>, other: string)
    requires |names| == |present|
    requires forall i :: 0 <= i < |names| ==> names[i] != other
    ensures lead + other !in MissingFieldErrors(lead, names, present)
    decreases |names|
  {
    if |names| > 0 {
      var n := |names| - 1;
      MissingFieldsExcluded(lead, names[..n], present[..n], other);
      assert lead + other != lead + names[n] by {
        assert (lead + other)[|lead|..] == other;
        assert (lead + names[n])[|lead|..] == names[n];
      }
    }
  }

  // ---------------------------------------------------------------------
  // meloOperand
  // ---------------------------------------------------------------------

  const MeloFields: seq<string> :=
    ["meloId", "energyDirection", "lossFactorTransformer", "lossFactorConduction", "distributionFactorEnergyQuantity"]

  const FactorFields: seq<string> :=
    ["lossFactorTransformer", "lossFactorConduction", "distributionFactorEnergyQuantity"]

  const MeloMissingLead: string := "meloOperand missing required field: "

  function MeloFieldsPresent(m: MeloOperand): (r: seq<bool>)
    ensures |r| == |MeloFields|
  {
    [m.meloId.Some?, m.energyDirection.Some?, m.lossFactorTransformer.Some?,
     m.lossFactorConduction.Some?, m.distributionFactorEnergyQuantity.Some?]
  }

  function Factors(m: MeloOperand): (r: seq<Option<PercentField>>)
    ensures |r| == |FactorFields|
  {
    [m.lossFactorTransformer, m.lossFactorConduction, m.distributionFactorEnergyQuantity]
  }

  predicate IsEnergyDirection(d: string)
  {
    d == Consumption || d == Production
  }

  function MeloIdErrors(id: Option<string>): seq<string>
  {
    if id.Some? && !IsMeloId(id.value)
    then ["Invalid meloId format: " + id.value + ". Expected: DE + 11 digits + 20 alphanumeric"]
    else []
  }

  function DirectionErrors(d: Option<string>): seq<string>
  {
    if d.Some? && !IsEnergyDirection(d.value)
    then ["Invalid energyDirection: " + d.value + ". Must be: consumption or production"]
    else []
  }

  /** The check of one present factor: it needs a `percentvalue` in [0, 1]. */
  function FactorError(name: string, f: Option<PercentField>): seq<string>
  {
    if f.None? then []
    else if f.value.percentvalue.Some? then
      if IsPercentValue(f.value.percentvalue.value) then []
      else [name + ".percentvalue must be between 0.0 and 1.0"]
    else [name + " must have percentvalue field"]
  }

  function FactorErrors(names: seq<string>, factors: seq<Option<PercentField>>): seq<string>
    requires |names| == |factors|
    decreases |names|
  {
    if |names| == 0 then []
    else
      var n := |names| - 1;
      FactorErrors(names[..n], factors[..n]) + FactorError(names[n], factors[n])
  }

  function MeloOperandErrors(m: MeloOperand): seq<string>
  {
    MissingFieldErrors(MeloMissingLead, MeloFields, MeloFieldsPresent(m))
    + MeloIdErrors(m.meloId)
    + DirectionErrors(m.energyDirection)
    + FactorErrors(FactorFields, Factors(m))
  }

  /** A factor record carrying a percent value in [0, 1]. */
  predicate FactorInRange(f: Option<PercentField>)
  {
    f.Some? && f.value.percentvalue.Some? && IsPercentValue(f.value.percentvalue.value)
  }

  /** Schema of a meter operand: a well-formed meter id, a known energy
      direction and three factors in [0, 1]. */
  predicate WellFormedMeloOperand(m: MeloOperand)
  {
    && m.meloId.Some? && IsMeloId(m.meloId.value)
    && m.energyDirection.Some? && IsEnergyDirection(m.energyDirection.value)
    && FactorInRange(m.lossFactorTransformer)
    && FactorInRange(m.lossFactorConduction)
    && FactorInRange(m.distributionFactorEnergyQuantity)
  }

  lemma {:induction false} NoFactorErrors(names: seq<string>, factors: seq<Option<PercentField>>)
    requires |names| == |factors|
    ensures FactorErrors(names, factors) == [] <==> forall i :: 0 <= i < |factors| ==> FactorError(names[i], factors[i]) == []
    decreases |names|
  {
    if |names| > 0 {
      var n := |names| - 1;
      NoFactorErrors(names[..n], factors[..n]);
      assert forall i :: 0 <= i < n ==> names[..n][i] == names[i] && factors[..n][i] == factors[i];
    }
  }

  lemma MeloOperandValid(m: MeloOperand)
    ensures MeloOperandErrors(m) == [] <==> WellFormedMeloOperand(m)
  {
    var present := MeloFieldsPresent(m);
    NoMissingFieldErrors(MeloMissingLead, MeloFields, present);
    NoFactorErrors(FactorFields, Factors(m));
    if MeloOperandErrors(m) == [] {
      assert present[0] && present[1] && present[2] && present[3] && present[4];
      assert FactorError(FactorFields[0], Factors(m)[0]) == [];
      assert FactorError(FactorFields[1], Factors(m)[1]) == [];
      assert FactorError(FactorFields[2], Factors(m)[2]) == [];
    }
  }

  /** Every missing required field of a meter operand gets its own message, and
      only missing ones do. */
  lemma MeloMissingFieldReported(m: MeloOperand, k: nat)
    requires k < |MeloFields|
    ensures MeloMissingLead + MeloFields[k] in MeloOperandErrors(m) <==> !MeloFieldsPresent(m)[k]
  {
    var present := MeloFieldsPresent(m);
    var msg := MeloMissingLead + MeloFields[k];
    assert |MeloFields[0]| == 6 && |MeloFields[1]| == 15 && |MeloFields[2]| == 21;
    assert |MeloFields[3]| == 20 && |MeloFields[4]| == 32;
    MissingFieldReported(MeloMissingLead, MeloFields, present, k);
    var r1 := MeloIdErrors(m.meloId);
    var r2 := DirectionErrors(m.energyDirection);
    var r3 := FactorErrors(FactorFields, Factors(m));
    assert MeloOperandErrors(m) == MissingFieldErrors(MeloMissingLead, MeloFields, present) + (r1 + r2 + r3);
    assert msg[0] == 'm';
    assert msg !in r1 && msg !in r2;
    FactorErrorsStartWith(FactorFields, Factors(m));
    assert msg !in r3;
  }

  /** Factor messages start with the factor's name, never with 'm'. */
  lemma {:induction false} FactorErrorsStartWith(names: seq<string>, factors: seq<Option<PercentField>>)
    requires |names| == |factors|
    requires forall i :: 0 <= i < |names| ==> |names[i]| > 0 && names[i][0] != 'm'
    ensures forall e :: e in FactorErrors(names, factors) ==> |e| > 0 && e[0] != 'm'
    decreases |names|
  {
    if |names| > 0 {
      var n := |names| - 1;
      FactorErrorsStartWith(names[..n], factors[..n]);
      var name := names[n];
      assert (name + ".percentvalue must be between 0.0 and 1.0")[0] == name[0];
      assert (name + " must have percentvalue field")[0] == name[0];
    }
  }

  // ---------------------------------------------------------------------
  // Operands and formulas
  // ---------------------------------------------------------------------

  /** The operand variants that are present, in the order the server lists them. */
  function PresentOperandTypes(o: Operand): seq<string>
  {
    (if o.meloOperand.Some? then ["meloOperand"] else [])
    + (if o.constValue.Some? then ["const"] else [])
    + (if o.formulaVar.Some? then ["formulaVar"] else [])
    + (if o.calculationFormula.Some? then ["calculationFormula"] else [])
  }

  /** The formula operations that are present, in the order the server lists them. */
  function PresentOperations(f: CalculationFormula): seq<string>
  {
    (if f.add.Present? then ["add"] else [])
    + (if f.sub.Some? then ["sub"] else [])
    + (if f.mul.Present? then ["mul"] else [])
    + (if f.div.Present? then ["div"] else [])
    + (if f.pos.Some? then ["pos"] else [])
    + (if f.operand.Some? then ["operand"] else [])
  }

  const NoOperandType: string := "Operand must have one of: meloOperand, const, formulaVar, calculationFormula"
  const NoOperation: string := "calculationFormula must have one of: add, sub, mul, div, pos, operand"

  function ConstErrors(c: string): seq<string>
  {
    if IsConstLiteral(c) then [] else ["Invalid const value: " + c]
  }

  function FormulaVarErrors(v: string): seq<string>
  {
    if IsFormulaVar(v) then [] else ["formulaVar must start with a letter: " + v]
  }

  function OperandErrors(o: Operand): seq<string>
    decreases o
  {
    var present := PresentOperandTypes(o);
    if |present| == 0 then [NoOperandType]
    else if |present| > 1 then ["Operand must have exactly one type, found: " + ListRepr(present)]
    else if o.meloOperand.Some? then MeloOperandErrors(o.meloOperand.value)
    else if o.constValue.Some? then ConstErrors(o.constValue.value)
    else if o.formulaVar.Some? then FormulaVarErrors(o.formulaVar.value)
    else FormulaErrors(o.calculationFormula.value)
  }

  function FormulaErrors(f: CalculationFormula): seq<string>
    decreases f
  {
    var present := PresentOperations(f);
    if |present| == 0 then [NoOperation]
    else if |present| > 1 then ["calculationFormula must have exactly one operation, found: " + ListRepr(present)]
    else if f.add.Present? then IndexedErrors("add", OperandErrorLists(f.add.operands))
    else if f.sub.Some? then SubErrors(f.sub.value)
    else if f.mul.Present? then IndexedErrors("mul", OperandErrorLists(f.mul.operands))
    else if f.div.Present? then IndexedErrors("div", OperandErrorLists(f.div.operands))
    else if f.pos.Some? then Prefixed("pos: ", OperandErrors(f.pos.value))
    else OperandErrors(f.operand.value)
  }

  function SubErrors(s: SubOperation): seq<string>
    decreases s
  {
    (if s.minuend.None? then ["sub operation missing minuend"]
     else Prefixed("sub.minuend: ", OperandErrors(s.minuend.value)))
    + (if s.subtrahend.None? then ["sub operation missing subtrahend"]
       else Prefixed("sub.subtrahend: ", OperandErrors(s.subtrahend.value)))
  }

  /** The path prefix of the `i`-th element of a named list: `name[i]: `. */
  function IndexPrefix(name: string, i: nat): string
  {
    name + "[" + NatToString(i) + "]: "
  }

  /** `for i, item in enumerate(items): errors.extend([f'{name}[{i}]: {e}' ...])`,
      given the error list of each item. */
  function IndexedErrors(name: string, itemErrors: seq<seq<string>>): seq<string>
    decreases |itemErrors|
  {
    if |itemErrors| == 0 then []
    else
      var n := |itemErrors| - 1;
      IndexedErrors(name, itemErrors[..n]) + Prefixed(IndexPrefix(name, n), itemErrors[n])
  }

  lemma {:induction false} IndexedEmpty(name: string, itemErrors: seq<seq<string>>)
    ensures IndexedErrors(name, itemErrors) == [] ==> forall i :: 0 <= i < |itemErrors| ==> itemErrors[i] == []
    ensures (forall i :: 0 <= i < |itemErrors| ==> itemErrors[i] == []) ==> IndexedErrors(name, itemErrors) == []
    decreases |itemErrors|
  {
    if |itemErrors| > 0 {
      var n := |itemErrors| - 1;
      IndexedEmpty(name, itemErrors[..n]);
      assert forall i :: 0 <= i < n ==> itemErrors[..n][i] == itemErrors[i];
    }
  }

  /** Every error of every item is reported, under the item's prefix. */
  lemma {:induction false} IndexedReports(name: string, itemErrors: seq<seq<string>>, i: nat, e: string)
    requires i < |itemErrors| && e in itemErrors[i]
    ensures IndexPrefix(name, i) + e in IndexedErrors(name, itemErrors)
    decreases |itemErrors|
  {
    var n := |itemErrors| - 1;
    var front := IndexedErrors(name, itemErrors[..n]);
    var last := Prefixed(IndexPrefix(name, n), itemErrors[n]);
    assert IndexedErrors(name, itemErrors) == front + last;
    if i < n {
      assert itemErrors[..n][i] == itemErrors[i];
      IndexedReports(name, itemErrors[..n], i, e);
      assert IndexPrefix(name, i) + e in front;
    } else {
      var errs := itemErrors[i];
      var k :| 0 <= k < |errs| && errs[k] == e;
      assert last[k] == IndexPrefix(name, i) + e;
      assert IndexPrefix(name, i) + e in last;
    }
  }

  function OperandErrorLists(ops: seq<Operand>): (r: seq<seq<string>>)
    decreases ops
  {
    seq(|ops|, i requires 0 <= i < |ops| => OperandErrors(ops[i]))
  }

  /** Schema of an operand: exactly one variant, and that variant well formed. */
  predicate WellFormedOperand(o: Operand)
    decreases o
  {
    match o
    case Operand(Some(m), None, None, None) => WellFormedMeloOperand(m)
    case Operand(None, Some(c), None, None) => IsConstLiteral(c)
    case Operand(None, None, Some(v), None) => IsFormulaVar(v)
    case Operand(None, None, None, Some(f)) => WellFormedFormula(f)
    case _ => false
  }

  /** Schema of a formula: exactly one operation, with well-formed operands. */
  predicate WellFormedFormula(f: CalculationFormula)
    decreases f
  {
    match f
    case CalculationFormula(Present(ops), None, Absent, Absent, None, None) => WellFormedOperands(ops)
    case CalculationFormula(Absent, Some(s), Absent, Absent, None, None) =>
      s.minuend.Some? && s.subtrahend.Some?
      && WellFormedOperand(s.minuend.value) && WellFormedOperand(s.subtrahend.value)
    case CalculationFormula(Absent, None, Present(ops), Absent, None, None) => WellFormedOperands(ops)
    case CalculationFormula(Absent, None, Absent, Present(ops), None, None) => WellFormedOperands(ops)
    case CalculationFormula(Absent, None, Absent, Absent, Some(p), None) => WellFormedOperand(p)
    case CalculationFormula(Absent, None, Absent, Absent, None, Some(p)) => WellFormedOperand(p)
    case _ => false
  }

  predicate WellFormedOperands(ops: seq<Operand>)
    decreases ops
  {
    forall i :: 0 <= i < |ops| ==> WellFormedOperand(ops[i])
  }

  lemma {:induction false} OperandValid(o: Operand)
    ensures OperandErrors(o) == [] <==> WellFormedOperand(o)
    decreases o
  {
    var present := PresentOperandTypes(o);
    if |present| == 1 {
      if o.meloOperand.Some? {
        MeloOperandValid(o.meloOperand.value);
      } else if o.calculationFormula.Some? && o.constValue.None? && o.formulaVar.None? {
        FormulaValid(o.calculationFormula.value);
      }
    }
  }

  lemma {:induction false} FormulaValid(f: CalculationFormula)
    ensures FormulaErrors(f) == [] <==> WellFormedFormula(f)
    decreases f
  {
    var present := PresentOperations(f);
    if |present| == 1 {
      if f.add.Present? {
        ListValid(f.add.operands);
        IndexedEmpty("add", OperandErrorLists(f.add.operands));
      } else if f.sub.Some? {
        SubValid(f.sub.value);
      } else if f.mul.Present? {
        ListValid(f.mul.operands);
        IndexedEmpty("mul", OperandErrorLists(f.mul.operands));
      } else if f.div.Present? {
        ListValid(f.div.operands);
        IndexedEmpty("div", OperandErrorLists(f.div.operands));
      } else if f.pos.Some? {
        OperandValid(f.pos.value);
      } else {
        OperandValid(f.operand.value);
      }
    }
  }

  lemma {:induction false} SubValid(s: SubOperation)
    ensures SubErrors(s) == [] <==>
      s.minuend.Some? && s.subtrahend.Some?
      && WellFormedOperand(s.minuend.value) && WellFormedOperand(s.subtrahend.value)
    decreases s
  {
    if s.minuend.Some? { OperandValid(s.minuend.value); }
    if s.subtrahend.Some? { OperandValid(s.subtrahend.value); }
  }

  lemma {:induction false} ListValid(ops: seq<Operand>)
    ensures (forall i :: 0 <= i < |ops| ==> OperandErrorLists(ops)[i] == []) ==> WellFormedOperands(ops)
    ensures WellFormedOperands(ops) ==> forall i :: 0 <= i < |ops| ==> OperandErrorLists(ops)[i] == []
    decreases ops
  {
    var lists := OperandErrorLists(ops);
    if forall i :: 0 <= i < |ops| ==> lists[i] == [] {
      forall i | 0 <= i < |ops|
        ensures WellFormedOperand(ops[i])
      {
        OperandValid(ops[i]);
        assert lists[i] == [];
      }
      assert WellFormedOperands(ops);
    }
    if WellFormedOperands(ops) {
      forall i | 0 <= i < |ops|
        ensures lists[i] == []
      {
        OperandValid(ops[i]);
      }
      assert forall i :: 0 <= i < |ops| ==> lists[i] == [];
    }
  }

  /** Aggregation: every error of every listed operand is reported, under its
      own path prefix; validation never stops at the first failing operand. */
  lemma ListReportsChild(f: CalculationFormula, opName: string, ops: seq<Operand>, i: nat, e: string)
    requires PresentOperations(f) == [opName]
    requires || (opName == "add" && f.add == Present(ops))
             || (opName == "mul" && f.mul == Present(ops))
             || (opName == "div" && f.div == Present(ops))
    requires i < |ops| && e in OperandErrors(ops[i])
    ensures IndexPrefix(opName, i) + e in FormulaErrors(f)
  {
    IndexedReports(opName, OperandErrorLists(ops), i, e);
  }

  /** Both halves of a `sub` are checked: the minuend's errors and the subtrahend's
      errors are all reported, each under its own prefix. */
  lemma SubReportsBoth(s: SubOperation, e1: string, e2: string)
    requires s.minuend.Some? && e1 in OperandErrors(s.minuend.value)
    requires s.subtrahend.Some? && e2 in OperandErrors(s.subtrahend.value)
    ensures "sub.minuend: " + e1 in SubErrors(s)
    ensures "sub.subtrahend: " + e2 in SubErrors(s)
  {
    var a := OperandErrors(s.minuend.value);
    var b := OperandErrors(s.subtrahend.value);
    var i :| 0 <= i < |a| && a[i] == e1;
    var j :| 0 <= j < |b| && b[j] == e2;
    assert Prefixed("sub.minuend: ", a)[i] == "sub.minuend: " + e1;
    assert Prefixed("sub.subtrahend: ", b)[j] == "sub.subtrahend: " + e2;
  }

  /** A violated operand union (no variant, or several) draws exactly one error,
      which depends only on which variants are present: no variant is checked. */
  lemma OperandUnionViolation(o1: Operand, o2: Operand)
    requires PresentOperandTypes(o1) == PresentOperandTypes(o2)
    requires |PresentOperandTypes(o1)| != 1
    ensures |OperandErrors(o1)| == 1
    ensures OperandErrors(o1) == OperandErrors(o2)
  {
  }

  /** A violated operation union draws exactly one error, whatever the operations contain. */
  lemma FormulaUnionViolation(f1: CalculationFormula, f2: CalculationFormula)
    requires PresentOperations(f1) == PresentOperations(f2)
    requires |PresentOperations(f1)| != 1
    ensures |FormulaErrors(f1)| == 1
    ensures FormulaErrors(f1) == FormulaErrors(f2)
  {
  }

  // ---------------------------------------------------------------------
  // Time slices
  // ---------------------------------------------------------------------

  const TimeSliceFields: seq<string> :=
    ["timeSliceId", "timeSliceQuality", "periodOfUseFrom", "periodOfUseTo", "calculationFormula"]

  const PeriodFields: seq<string> := ["periodOfUseFrom", "periodOfUseTo"]

  const TimeSliceMissingLead: string := "Time slice missing required field: "

  function TimeSliceFieldsPresent(ts: TimeSlice): (r: seq<bool>)
    ensures |r| == |TimeSliceFields|
  {
    [ts.timeSliceId.Some?, ts.timeSliceQuality.Some?, ts.periodOfUseFrom.Some?,
     ts.periodOfUseTo.Some?, ts.calculationFormula.Some?]
  }

  function Periods(ts: TimeSlice): (r: seq<Option<string>>)
    ensures |r| == |PeriodFields|
  {
    [ts.periodOfUseFrom, ts.periodOfUseTo]
  }

  predicate IsQuality(q: string)
  {
    q == ValidData || q == NoData
  }

  function QualityErrors(q: Option<string>): seq<string>
  {
    if q.Some? && !IsQuality(q.value)
    then ["Invalid timeSliceQuality: " + q.value + ". Must be: Gültige Daten or Keine Daten"]
    else []
  }

  /** The timestamp check of one present period field. */
  function PeriodError(name: string, v: Option<string>, isIsoDateTime: string -> bool): seq<string>
  {
    if v.Some? && !isIsoDateTime(v.value) then [name + " must be ISO 8601 format"] else []
  }

  function PeriodErrors(names: seq<string>, values: seq<Option<string>>, isIsoDateTime: string -> bool): seq<string>
    requires |names| == |values|
    decreases |names|
  {
    if |names| == 0 then []
    else
      var n := |names| - 1;
      PeriodErrors(names[..n], values[..n], isIsoDateTime) + PeriodError(names[n], values[n], isIsoDateTime)
  }

  function TimeSliceErrors(ts: TimeSlice, isIsoDateTime: string -> bool): seq<string>
  {
    MissingFieldErrors(TimeSliceMissingLead, TimeSliceFields, TimeSliceFieldsPresent(ts))
    + QualityErrors(ts.timeSliceQuality)
    + PeriodErrors(PeriodFields, Periods(ts), isIsoDateTime)
    + (if ts.calculationFormula.Some? then FormulaErrors(ts.calculationFormula.value) else [])
  }

  /** Schema of a time slice: every field present, a known quality, ISO 8601
      periods and a well-formed formula. */
  predicate WellFormedTimeSlice(ts: TimeSlice, isIsoDateTime: string -> bool)
  {
    && ts.timeSliceId.Some?
    && ts.timeSliceQuality.Some? && IsQuality(ts.timeSliceQuality.value)
    && ts.periodOfUseFrom.Some? && isIsoDateTime(ts.periodOfUseFrom.value)
    && ts.periodOfUseTo.Some? && isIsoDateTime(ts.periodOfUseTo.value)
    && ts.calculationFormula.Some? && WellFormedFormula(ts.calculationFormula.value)
  }

  lemma {:induction false} NoPeriodErrors(names: seq<string>, values: seq<Option<string>>, isIsoDateTime: string -> bool)
    requires |names| == |values|
    ensures PeriodErrors(names, values, isIsoDateTime) == [] <==>
      forall i :: 0 <= i < |values| ==> (values[i].Some? ==> isIsoDateTime(values[i].value))
    decreases |names|
  {
    if |names| > 0 {
      var n := |names| - 1;
      NoPeriodErrors(names[..n], values[..n], isIsoDateTime);
      assert forall i :: 0 <= i < n ==> values[..n][i] == values[i];
    }
  }

  lemma TimeSliceValid(ts: TimeSlice, isIsoDateTime: string -> bool)
    ensures TimeSliceErrors(ts, isIsoDateTime) == [] <==> WellFormedTimeSlice(ts, isIsoDateTime)
  {
    var present := TimeSliceFieldsPresent(ts);
    NoMissingFieldErrors(TimeSliceMissingLead, TimeSliceFields, present);
    NoPeriodErrors(PeriodFields, Periods(ts), isIsoDateTime);
    if ts.calculationFormula.Some? {
      FormulaValid(ts.calculationFormula.value);
    }
    if TimeSliceErrors(ts, isIsoDateTime) == [] {
      assert present[0] && present[1] && present[2] && present[3] && present[4];
      assert Periods(ts)[0] == ts.periodOfUseFrom && Periods(ts)[1] == ts.periodOfUseTo;
    }
  }

  // ---------------------------------------------------------------------
  // Formula locations
  // ---------------------------------------------------------------------

  const NoLocationId: string := "FormulaLocation must have either maloId or neloId"
  const BothLocationIds: string := "FormulaLocation must have either maloId OR neloId, not both"
  const NoTimeSlices: string := "FormulaLocation must have calculationFormulaTimeSlices"
  const EmptyTimeSlices: string := "calculationFormulaTimeSlices cannot be empty"

  function MaloIdError(id: string): string
  {
    "Invalid maloId format: " + id + ". Expected: 11 digits"
  }

  function NeloIdError(id: string): string
  {
    "Invalid neloId format: " + id + ". Expected: E + 9 alphanumeric + 1 digit"
  }

  /** The id checks: presence as a union, and the format of each truthy id on its own. */
  function LocationIdErrors(loc: FormulaLocation): seq<string>
  {
    var hasMalo := IsTruthyText(loc.maloId);
    var hasNelo := IsTruthyText(loc.neloId);
    (if !hasMalo && !hasNelo then [NoLocationId] else [])
    + (if hasMalo && hasNelo then [BothLocationIds] else [])
    + (if hasMalo && !IsMaloId(loc.maloId.value) then [MaloIdError(loc.maloId.value)] else [])
    + (if hasNelo && !IsNeloId(loc.neloId.value) then [NeloIdError(loc.neloId.value)] else [])
  }

  /** The errors of each time slice, in list order. */
  function TimeSliceErrorLists(slices: seq<TimeSlice>, isIsoDateTime: string -> bool): (r: seq<seq<string>>)
  {
    seq(|slices|, i requires 0 <= i < |slices| => TimeSliceErrors(slices[i], isIsoDateTime))
  }

  function SliceListErrors(slices: Option<seq<TimeSlice>>, isIsoDateTime: string -> bool): seq<string>
  {
    if slices.None? then [NoTimeSlices]
    else if |slices.value| == 0 then [EmptyTimeSlices]
    else IndexedErrors("timeSlice", TimeSliceErrorLists(slices.value, isIsoDateTime))
  }

  function LocationErrors(loc: FormulaLocation, isIsoDateTime: string -> bool): seq<string>
  {
    LocationIdErrors(loc) + SliceListErrors(loc.calculationFormulaTimeSlices, isIsoDateTime)
  }

  /** Schema of a formula location: exactly one truthy id, in its own format,
      and a non-empty list of well-formed time slices. */
  predicate WellFormedLocation(loc: FormulaLocation, isIsoDateTime: string -> bool)
  {
    && (IsTruthyText(loc.maloId) != IsTruthyText(loc.neloId))
    && (IsTruthyText(loc.maloId) ==> IsMaloId(loc.maloId.value))
    && (IsTruthyText(loc.neloId) ==> IsNeloId(loc.neloId.value))
    && loc.calculationFormulaTimeSlices.Some?
    && |loc.calculationFormulaTimeSlices.value| > 0
    && forall i :: 0 <= i < |loc.calculationFormulaTimeSlices.value| ==>
         WellFormedTimeSlice(loc.calculationFormulaTimeSlices.value[i], isIsoDateTime)
  }

  lemma SlicesValid(slices: seq<TimeSlice>, isIsoDateTime: string -> bool)
    ensures IndexedErrors("timeSlice", TimeSliceErrorLists(slices, isIsoDateTime)) == [] <==>
      forall i :: 0 <= i < |slices| ==> WellFormedTimeSlice(slices[i], isIsoDateTime)
  {
    IndexedEmpty("timeSlice", TimeSliceErrorLists(slices, isIsoDateTime));
    forall i | 0 <= i < |slices|
      ensures TimeSliceErrorLists(slices, isIsoDateTime)[i] == [] <==> WellFormedTimeSlice(slices[i], isIsoDateTime)
    {
      TimeSliceValid(slices[i], isIsoDateTime);
    }
  }

  lemma LocationValid(loc: FormulaLocation, isIsoDateTime: string -> bool)
    ensures LocationErrors(loc, isIsoDateTime) == [] <==> WellFormedLocation(loc, isIsoDateTime)
  {
    var slices := loc.calculationFormulaTimeSlices;
    if slices.Some? {
      SlicesValid(slices.value, isIsoDateTime);
    }
  }

  /** Each truthy id is format-checked on its own, even when the union is violated. */
  lemma LocationIdsCheckedIndependently(loc: FormulaLocation, isIsoDateTime: string -> bool)
    ensures IsTruthyText(loc.maloId) && IsTruthyText(loc.neloId) ==> BothLocationIds in LocationErrors(loc, isIsoDateTime)
    ensures IsTruthyText(loc.maloId) && !IsMaloId(loc.maloId.value) ==> MaloIdError(loc.maloId.value) in LocationErrors(loc, isIsoDateTime)
    ensures IsTruthyText(loc.neloId) && !IsNeloId(loc.neloId.value) ==> NeloIdError(loc.neloId.value) in LocationErrors(loc, isIsoDateTime)
  {
  }

  /** Every error of every time slice of a location is reported under `timeSlice[i]: `. */
  lemma SliceReportsChild(loc: FormulaLocation, i: nat, e: string, isIsoDateTime: string -> bool)
    requires loc.calculationFormulaTimeSlices.Some?
    requires i < |loc.calculationFormulaTimeSlices.value|
    requires e in TimeSliceErrors(loc.calculationFormulaTimeSlices.value[i], isIsoDateTime)
    ensures IndexPrefix("timeSlice", i) + e in LocationErrors(loc, isIsoDateTime)
  {
    var slices := loc.calculationFormulaTimeSlices.value;
    IndexedReports("timeSlice", TimeSliceErrorLists(slices, isIsoDateTime), i, e);
  }

  /** An accepted location has a storage key, and that key is a market or a
      network location id (never both kinds). */
  lemma AcceptedLocationKey(loc: FormulaLocation, isIsoDateTime: string -> bool)
    requires LocationErrors(loc, isIsoDateTime) == []
    ensures IsTruthyText(LocationKey(loc))
    ensures IsMaloId(LocationKey(loc).value) || IsNeloId(LocationKey(loc).value)
    ensures IsMaloId(LocationKey(loc).value) <==> IsTruthyText(loc.maloId)
  {
    LocationValid(loc, isIsoDateTime);
    LocationKindsDisjoint(LocationKey(loc).value);
  }
}

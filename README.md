# EDI@Energy formula engine — a verified Dafny model

This project models the formula engine of the EDI@Energy mock formula API. The engine has four parts:

- **Recognisers** for the identifiers and literals the interchange uses:
  - market location ids (11 digits);
  - meter location ids (`DE` + 11 digits + 20 of `A-Z0-9`);
  - network location ids (`E` + 9 of `A-Z0-9` + a digit);
  - transaction UUIDs;
  - constant literals, formula variables and percent values.

  Each is an explicit character-class predicate. Constants are parsed into parts, and these parts have an exact decimal value.
- **The structural validator.** It walks a `FormulaLocation` document and collects every error message rather than stopping at the first.
  - Module `Validation` gives each error list as a function of the document, next to an independent schema predicate (`WellFormed...`).
  - Its lemmas prove that a document draws no error exactly when it satisfies the schema.
  - Module `Validator` contains the loops that build the lists. Each is proved to return exactly the specified list.
- **The interpreter.** It evaluates `add`/`sub`/`mul`/`div`/`pos`/`operand` trees over exact reals for one interval index, and calculates a time slice interval by interval.
  - Module `Evaluation` specifies values and exceptions as functions. Its lemmas tie each operator to reference arithmetic (`Sum`, `Product`) and fix the quirks: a zero divisor, empty lists, and missing inputs.
  - It also proves that a validated formula never raises on input series with numeric quantities.
  - Module `Engine` contains the loops with early exits, proved to compute those functions.
- **The server state.** Class `Registry.Registry` holds:
  - the location store;
  - the response cache used for replayed submissions;
  - the calculation records;
  - the calculated output series.

  `Submit` and `Calculate` are the two handlers that change this state, with the Flask layer removed. Their contracts state the whole new state and keep the `Valid()` invariant. Two examples of that invariant: every stored document passes validation and sits under its own location id, and every cached response is an acceptance.

JSON objects become datatypes with `Option` fields: `None` means the key is absent. This is why zero or several operand variants, or several operations, can be represented and rejected. Python exceptions raised during evaluation become `Err` values of `Evaluation.EvalError`: `KeyError` becomes `MissingKey` and `ValueError` from `float()` becomes `InvalidConst`.

Where the written specification and the code disagree, the model follows the code. Division by zero gives 0.0, and empty `add`/`mul`/`div` lists are accepted by the validator and evaluate to 0.0.

## Model

| member | source | states |
|---|---|---|
| Identifiers.MeloIdOfAccepted | mock_api_server.py:55 | `DE`, then any 11 digits, then any 20 characters from `A-Z0-9`, is a meter location id |
| Identifiers.IsMaloId | mock_api_server.py:54 | (predicate) exactly the 11-character strings of ASCII digits; see `Identifiers.LocationKindsDisjoint` |
| Identifiers.MeloIdSplits | frontend/src/types/formula.ts:394 | every meter location id splits back into `DE`, 11 digits and 20 upper-case alphanumerics (33 characters), and contains no lower-case letter |
| Identifiers.NeloIdOfAccepted | mock_api_server.py:56 | `E`, 9 characters from `A-Z0-9` and a digit form a network location id |
| Identifiers.NeloIdSplits | frontend/src/types/formula.ts:395 | every network location id splits back into `E`, 9 upper-case alphanumerics and a check digit |
| Identifiers.LocationKindsDisjoint | mock_api_server.py:54-56 | no string is both a market and a network location id, nor a meter id as well |
| Identifiers.UuidOfAccepted | mock_api_server.py:57 | five hex groups of 8-4-4-4-12 joined by hyphens form a transaction id |
| Identifiers.TransactionIdSplits | frontend/src/types/formula.ts:396 | every transaction id splits back into its five hex groups; version and variant nibbles are not checked |
| Identifiers.TransactionIdIgnoresCase | frontend/src/types/formula.ts:396 | a string is a transaction id exactly when its lower-cased form is |
| Literals.ParseConst | frontend/src/types/formula.ts:398 | a parse yields well-formed parts that print back to the input text |
| Literals.ParseConstText | mock_api_server.py:59 | every well-formed constant prints to text that parses back to the same parts (round trip) |
| Literals.ConstAcceptsTrailingPoint | frontend/src/types/formula.ts:398 | `5.` is a constant literal |
| Literals.ConstAcceptsLeadingPoint | frontend/src/types/formula.ts:398 | `.5` is a constant literal |
| Literals.ConstAcceptsExponent | frontend/src/types/formula.ts:398 | `1e5` is a constant literal |
| Literals.ConstRejectsPlus | frontend/src/types/formula.ts:398 | `+5` is not a constant literal |
| Literals.ConstRejectsLonePoint | frontend/src/types/formula.ts:398 | `.` is not a constant literal |
| Literals.ConstRejectsEmptyExponent | frontend/src/types/formula.ts:398 | `1e` is not a constant literal |
| Literals.PercentTextInRange | frontend/src/types/formula.ts:397 | text matching the percent pattern is a constant literal whose value lies in [0, 1] |
| Literals.PercentTextExamples | frontend/src/types/formula.ts:397 | the percent pattern accepts `0`, `0.25`, `1`, `1.000` and rejects `1.5`, `.5` |
| Literals.IsPercentValue | mock_api_server.py:90-92 | (predicate) 0 <= v <= 1; see `Literals.PercentTextInRange` and `Validation.NoFactorErrors` |
| Literals.IsFormulaVar | mock_api_server.py:186 | (predicate) the first character is an ASCII letter, with no end anchor |
| Literals.DigitsValueBelowPow10 | mock_api_server.py:90-92 | a digit string of length n has a value below 10^n |
| FormulaTypes.PreferTruthy | mock_api_server.py:613 | `a or b` on optional text is truthy iff one of them is; it is `a` when `a` is truthy and `b` otherwise |
| Validation.NoMissingFieldErrors | mock_api_server.py:134-140 | the required-field loop reports nothing iff every field is present |
| Validation.MissingFieldReported | mock_api_server.py:138-140 | for distinct field names, the message for field k is reported iff field k is missing |
| Validation.MissingFieldsExcluded | mock_api_server.py:138-140 | no message names a field outside the required list |
| Validation.MeloMissingFieldReported | mock_api_server.py:134-140 | a meter operand draws `meloOperand missing required field: f` exactly for its missing fields f |
| Validation.NoFactorErrors | mock_api_server.py:152-160 | the factor loop reports nothing iff every present factor has a percentvalue in [0, 1] |
| Validation.MeloOperandValid | mock_api_server.py:130-162 | a meter operand draws no error iff all five fields are present, its meloId and energyDirection are valid, and each factor has a percentvalue in [0, 1] |
| Validation.OperandValid | mock_api_server.py:165-191 | an operand draws no error iff exactly one variant is present and that variant is well formed |
| Validation.FormulaValid | mock_api_server.py:194-258 | a formula draws no error iff exactly one operation is present and all its operands are well formed (an empty list is well formed) |
| Validation.SubValid | mock_api_server.py:217-230 | `sub` draws no error iff both halves are present and well formed |
| Validation.ListValid | mock_api_server.py:208-248 | an add/mul/div list draws no error iff every operand is well formed |
| Validation.IndexedEmpty | mock_api_server.py:213-215 | the prefixed list of child errors is empty iff every child's list is |
| Validation.IndexedReports | mock_api_server.py:213-215 | every error of child i appears prefixed by `name[i]: ` |
| Validation.ListReportsChild | mock_api_server.py:208-248 | in a formula whose one operation is an add/mul/div list, every error of operand i appears as `add[i]: e` (resp. `mul`, `div`) |
| Validation.SubReportsBoth | mock_api_server.py:217-230 | errors of both halves of `sub` are collected, each under its own prefix |
| Validation.OperandUnionViolation | mock_api_server.py:170-175 | an operand with no variant or several draws exactly one error, which depends only on which variants are present |
| Validation.FormulaUnionViolation | mock_api_server.py:198-203 | a formula with no operation or several draws exactly one error, whatever the operations contain |
| Validation.OperandErrors | mock_api_server.py:165-191 | (specification) characterised by `Validation.OperandValid` and `Validation.OperandUnionViolation` |
| Validation.FormulaErrors | mock_api_server.py:194-258 | (specification) characterised by `Validation.FormulaValid`, `Validation.ListReportsChild` and `Validation.FormulaUnionViolation` |
| Validation.NoPeriodErrors | mock_api_server.py:283-289 | the period loop reports nothing iff every present period passes the ISO 8601 check |
| Validation.TimeSliceValid | mock_api_server.py:261-295 | a time slice draws no error iff all five fields are present, the quality is known, both periods are ISO 8601 and the formula is well formed |
| Validation.TimeSliceErrors | mock_api_server.py:261-295 | (specification) characterised by `Validation.TimeSliceValid` |
| Validation.SlicesValid | mock_api_server.py:327-330 | the prefixed slice errors are empty iff every slice is well formed |
| Validation.LocationValid | mock_api_server.py:298-332 | a location draws no error iff it has exactly one truthy id in its own format and a non-empty list of well-formed time slices |
| Validation.LocationErrors | mock_api_server.py:298-332 | (specification) characterised by `Validation.LocationValid` and `Validation.SliceReportsChild` |
| Validation.LocationIdsCheckedIndependently | mock_api_server.py:302-318 | two truthy ids draw the both-ids error, and each truthy id is still format-checked on its own |
| Validation.SliceReportsChild | mock_api_server.py:327-330 | every error of slice i appears as `timeSlice[i]: e` |
| Validation.AcceptedLocationKey | mock_api_server.py:612-613 | an accepted location has a truthy storage key, which is a market id exactly when `maloId` is truthy and a network id otherwise |
| Validator.ReportMissing | mock_api_server.py:138-140 | the required-field loop returns exactly the specified missing-field messages |
| Validator.ValidateMeloOperand | mock_api_server.py:130-162 | returns exactly the meter operand's specified errors |
| Validator.ReportFactors | mock_api_server.py:153-160 | the factor loop returns exactly the specified factor errors |
| Validator.ValidateOperand | mock_api_server.py:165-191 | returns exactly the operand's specified errors |
| Validator.ValidateOperandList | mock_api_server.py:213-215 | the list loop returns exactly every operand's errors, prefixed by index |
| Validator.ValidateCalculationFormula | mock_api_server.py:194-258 | returns exactly the formula's specified errors |
| Validator.ValidateSub | mock_api_server.py:217-230 | returns exactly the specified errors of both halves |
| Validator.ValidateTimeSlice | mock_api_server.py:261-295 | returns exactly the time slice's specified errors |
| Validator.ReportPeriods | mock_api_server.py:284-289 | the period loop returns exactly the specified period errors |
| Validator.ValidateTimeSliceList | mock_api_server.py:328-330 | the slice loop returns exactly every slice's errors, prefixed by index |
| Validator.ValidateFormulaLocation | mock_api_server.py:298-332 | returns exactly the location's specified errors, so it returns nothing iff the location is well formed |
| Evaluation.ChosenOperation | mock_api_server.py:407-452 | the first truthy operation in the order add, sub, mul, div, pos, operand is the one run, and none exactly when no operation is truthy (an empty list is falsy) |
| Evaluation.OperandValue | mock_api_server.py:339-389 | (specification) see `Evaluation.ValidOperandEvaluates`, `Evaluation.ValidMeloWithinBase` and `Engine.ExecuteOperand` |
| Evaluation.FormulaValue | mock_api_server.py:392-452 | (specification) see the operator lemmas `Evaluation.AddIsSum` to `Evaluation.EmptyListIsZero` |
| Evaluation.FindSeries | mock_api_server.py:355-358 | the position of the series of a meter id, with no earlier series for it, or past the end when there is none |
| Evaluation.SumOfValues | mock_api_server.py:409-413 | when every operand evaluates, the add loop yields the sum of their values |
| Evaluation.ProductOfValues | mock_api_server.py:421-426 | when every operand evaluates, the mul loop yields the product of their values |
| Evaluation.QuotientOfValues | mock_api_server.py:431-441 | with no zero divisor, dividing left to right equals dividing once by their product |
| Evaluation.FirstErrorWins | mock_api_server.py:409-426 | the first operand that raises decides the outcome of add and mul |
| Evaluation.ZeroDivisorGivesZero | mock_api_server.py:434-440 | the first zero divisor makes the division 0.0, even when a later divisor would raise |
| Evaluation.AddIsSum | mock_api_server.py:407-413 | `add` evaluates to the sum of its operands |
| Evaluation.MulIsProduct | mock_api_server.py:421-426 | `mul` evaluates to the product of its operands |
| Evaluation.DivIsQuotient | mock_api_server.py:427-441 | `div` evaluates to the first operand over the product of the rest when no divisor is zero |
| Evaluation.DivByZeroIsZero | mock_api_server.py:434-440 | a zero divisor makes `div` 0.0 instead of raising |
| Evaluation.SubIsDifference | mock_api_server.py:415-419 | `sub` is minuend minus subtrahend |
| Evaluation.PosIsAbs | mock_api_server.py:443-446 | `pos` evaluates to the value or its negation, and is never negative |
| Evaluation.EmptyListIsZero | mock_api_server.py:407-452 | a formula whose only operations are empty lists is falsy and evaluates to 0.0 (an empty `mul` is 0.0, not 1.0) |
| Evaluation.NoErrorDivides | mock_api_server.py:431-441 | when every divisor evaluates, the division loop does not raise |
| Evaluation.SeriesReading | mock_api_server.py:355-358 | a meter's reading is the quantity at the index in the first series with its id, and 0.0 past the end of that series or when the quantity is absent |
| Evaluation.MissingSeriesIsZero | mock_api_server.py:351-371 | a valid meter operand whose meter has no input series evaluates to 0.0, whatever its factors |
| Evaluation.MeterValueWithinBase | mock_api_server.py:362-369 | with factors in [0, 1], a meter value never exceeds its reading in magnitude and stays in [0, reading] for a non-negative reading |
| Evaluation.ValidMeloWithinBase | mock_api_server.py:351-371 | a validated meter operand evaluates, and its value lies within its base reading |
| Evaluation.ValidOperandEvaluates | mock_api_server.py:339-389 | a validated operand never raises on input series with numeric quantities |
| Evaluation.ValidOperandsEvaluate | mock_api_server.py:409-441 | every operand of a validated list evaluates |
| Evaluation.ValidFormulaEvaluates | mock_api_server.py:392-452 | a validated formula never raises, at any interval, on any input series with numeric quantities |
| Evaluation.FirstError | mock_api_server.py:478-479 | the index of the first failing interval: all earlier ones evaluate |
| Evaluation.TimeSliceIntervals | mock_api_server.py:469-491 | a calculation yields one interval per interval of the first input series: numbered from 1, timed by that series, valued by the formula at that index, and labelled with the slice's quality |
| Evaluation.TimeSliceFailure | mock_api_server.py:478-479 | a calculation fails with the exception of the first interval whose value raises |
| Evaluation.TimeSliceResult | mock_api_server.py:455-491 | (specification) see `Evaluation.TimeSliceIntervals`, `Evaluation.TimeSliceFailure` and `Engine.CalculateTimeSlice` |
| Evaluation.ValidSliceCalculates | mock_api_server.py:455-491 | a validated time slice always calculates on input series with numeric quantities |
| Engine.ExecuteOperand | mock_api_server.py:339-389 | computes exactly the specified operand value or exception |
| Engine.ExecuteCalculationFormula | mock_api_server.py:392-452 | computes exactly the specified formula value or exception |
| Engine.SumOperands | mock_api_server.py:409-413 | the accumulating add loop with early exit computes the specified fold |
| Engine.MultiplyOperands | mock_api_server.py:421-426 | the accumulating mul loop with early exit computes the specified fold |
| Engine.DivideOperands | mock_api_server.py:427-441 | the division loop, with its zero-divisor exit, computes the specified fold |
| Engine.CalculateTimeSlice | mock_api_server.py:455-491 | the appending loop yields exactly the specified output intervals, or the first exception |
| Registry.LocationTypeMatchesKey | mock_api_server.py:612-627 | an accepted location is labelled `maloId` iff its storage key is a market id, and `neloId` iff it is a network id |
| Registry.LocationTypeAsWrittenMislabels | mock_api_server.py:627 | a document with `maloId: ""` and a valid `neloId` is accepted and stored under the network id, yet labelled `maloId` as written |
| Registry.LocationTypeAsWritten | mock_api_server.py:627 | (as written) `maloId` when the key is present; see `Registry.LocationTypesDifferOnEmptyMaloId` |
| Registry.LocationType | mock_api_server.py:671 | (corrected) `maloId` when `maloId` is truthy; see `Registry.LocationTypeMatchesKey` |
| Registry.LocationTypesDifferOnEmptyMaloId | mock_api_server.py:627 | the as-written and the corrected label differ exactly when `maloId` is present but empty |
| Registry.CalculatedSeriesNamesItsLocation | mock_api_server.py:825-828 | a series calculated for a stored location names it as exactly one of a market or a network location |
| Registry.FinalRecord | mock_api_server.py:844-855 | a calculation record is completed (with output id and interval count) iff the calculation succeeded, and failed with one `CALCULATION_ERROR` otherwise |
| Registry.SliceIndex | mock_api_server.py:793-797 | the first slice with the requested id, or none |
| Registry.FindTimeSlice | mock_api_server.py:793-803 | the lookup loop stops at the first slice with the requested id |
| Registry.AcceptedSliceCalculates | mock_api_server.py:821-855 | every time slice of an accepted document calculates on any input series with numeric quantities, so such a calculation on a stored formula never fails |
| Registry.StoreKeepsValid | mock_api_server.py:612-642 | storing an accepted document under its key and caching its acceptance keeps every stored document valid under its own id, and every cached response an acceptance of a stored location |
| Registry.RecordKeepsValid | mock_api_server.py:844-855 | recording a finished calculation, with its output series stored when it completed, keeps every record finished, under its own id, and naming a stored series when completed |
| Registry.Registry.constructor | mock_api_server.py:40-43 | all stores start empty and the state is valid |
| Registry.Registry.Submit | mock_api_server.py:578-644 | a cached `initialTransactionId` returns the cached response and changes nothing; an empty body or a failed validation returns 400 and changes nothing; otherwise the document is stored under its location id (replacing an earlier one), the acceptance labels it by the presence of the `maloId` key as written (see Findings) and is cached under the transaction id; the state stays valid |
| Registry.Registry.Calculate | mock_api_server.py:769-861 | an unknown location or time slice gives 404 and changes nothing; otherwise the outcome is recorded and, on success, the output series is stored; the state stays valid |
| Registry.Registry.Run | mock_api_server.py:811-855 | the record goes from processing to completed (output series stored) or failed (error text recorded), and nothing else changes |

## Left out

- HTTP layer: routing, status-code transport, CORS, OAuth tokens and header validation (`validate_headers`) are not modelled. `Submit` receives the transaction id, creation time and `initialTransactionId` already read from valid headers.
- Generated ids and timestamps: `now` is a parameter. The calculation id and the output series id are parameters too. The server reads the clock separately for `acceptedAt` and `acceptanceTime`; the model uses one instant.
- JSON `null` versus an absent key: both are `None`. This changes some outcomes, none of which is modelled:
  - a `null` where the interpreter indexes a key crashes Python with a `TypeError`;
  - `sub.minuend: null` (or `subtrahend`) makes `validate_operand(None)` raise a `TypeError`, an HTTP 500 (line 170); the model reports `sub operation missing minuend`;
  - a `null` factor of a meter operand draws `... must have percentvalue field` (line 160); the model reports the field as missing;
  - a `null` operand variant or operation counts as absent in both.
- A submission body that is empty or missing is `None`. An empty object `{}` is falsy in Python and must also be passed as `None`: the model's `Some(FormulaLocation(None, None, None))` stands for a body with only unknown keys, which is truthy and fails validation. Invalid JSON is not modelled.
- Quantity conversion failures: a stored input quantity that `float()` rejects (`"n/a"`, `null`) makes the calculation fail with a `ValueError` or `TypeError` (lines 357, 851-855). The model's quantities are numbers or absent, so the claims that validated formulas always calculate hold for input series with numeric quantities only.
- Dynamic-type errors are unrepresentable with typed fields: "must be an array", "must have minuend and subtrahend" for a non-object, and the integer check on `timeSliceId`.
- `float()` conversion: constants are read exactly by the constant grammar.
  - Python's `float()` also accepts text outside the grammar (`+5`, `inf`, surrounding blanks). For such text the model raises `InvalidConst`. It is reachable only for unvalidated documents.
  - Quantities are exact reals, not IEEE doubles. Rounding, overflow and `-0.0` are not modelled.
- Output quantities are kept as exact reals. The six-decimal rendering `f'{v:.6f}'` is not modelled.
- Regular-expression quirks: Python's `$` also matches before a trailing newline, and `\d` matches non-ASCII digits. The recognisers anchor strictly and accept ASCII digits only.
- ISO 8601 parsing (`datetime.fromisoformat`) is the parameter `isIsoDateTime`, a predicate fixed when the registry is created.
- The server's input is a dict keyed by meter id, so its keys are distinct. The model's input is a sequence of series, and a lookup takes the first series with the id.
- Resolution of input series (`inputTimeSeries` → stored series) and submitting or querying time series are not modelled. `Calculate` receives the resolved input series in insertion order. The `period` passthrough of the output series is not modelled.
- `ErrorText` renders a `KeyError` or `ValueError` text with single quotes. Python's `repr` switches to double quotes for text containing a single quote.
- Listing and reading stored formulas (`list_formulas`, `get_formula`) are queries without state changes. Only their labelling rule is modelled, as `Registry.LocationType`.
- Named functions (`Grp_Sum`, `Wenn_Dann`, …), a converter, overlap checks between time slices, and the UI pages are not part of the engine and are not modelled.
- `Engine.DivideOperands` requires a non-empty list. The server's own empty-list guard in the `div` branch cannot be reached, because an empty list is never chosen as the operation.
- `Registry.Registry.Calculate`: its contract does not itself say that the status is always completed. That follows from `Registry.AcceptedSliceCalculates` together with the `Valid()` invariant.

## Findings

| source | as written | input that shows it | evidently intended | confidence | as-written member | corrected member |
|---|---|---|---|---|---|---|
| mock_api_server.py:627 | the acceptance labels the location `maloId` whenever the key `maloId` is present, even when it is empty. The location is stored under `maloId or neloId` (line 613), and the listing labels by truthiness (line 671) | `{"maloId": "", "neloId": "E1234567890", ...}` with one valid time slice: accepted, stored under `E1234567890`, labelled `maloId` | label by the id actually used, as the listing does | high, not executed | Registry.LocationTypeAsWrittenMislabels | Registry.LocationTypeMatchesKey |

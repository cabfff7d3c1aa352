/** The server's in-memory state and the two handlers that change it: the
    formula submission (validate, store by location id, cache the response
    for replays) and the calculation request (find the stored formula and
    time slice, calculate it, record the outcome and store the output
    series). Clocks and generated ids are parameters. */
module Registry {
  import opened Wrappers
  import opened Text
  import opened Identifiers
  import opened FormulaTypes
  import opened Validation
  import opened Validator
  import opened Evaluation
  import opened Engine

  // ---------------------------------------------------------------------
  // Submission
  // ---------------------------------------------------------------------

  /** A formula location as stored: the accepted document and its metadata. */
  datatype StoredLocation = StoredLocation(data: FormulaLocation, transactionId: string, creationDateTime: string, acceptedAt: string)

  /** The submission responses: 202 with the accepted time slice ids (each
      reported valid), or 400 for a missing body or a failed validation. */
  datatype SubmitResponse =
    | Accepted(transactionId: string, acceptanceTime: string, locationId: string, locationType: string,
               timeSlicesAccepted: nat, acceptedSliceIds: seq<Option<int>>)
    | BodyRequired(transactionId: string)
    | ValidationFailed(transactionId: string, validationErrors: seq<string>)

  /** The submit handler's label: by the mere presence of the `maloId` key. */
  function LocationTypeAsWritten(loc: FormulaLocation): string
  {
    if loc.maloId.Some? then "maloId" else "neloId"
  }

  /** The label by truthiness of `maloId`, as the formula listing writes it
      and as the storage key is chosen. */
  function LocationType(loc: FormulaLocation): string
  {
    if IsTruthyText(loc.maloId) then "maloId" else "neloId"
  }

  /** An accepted location is labelled by the kind of id it is stored under. */
  lemma LocationTypeMatchesKey(loc: FormulaLocation, isIsoDateTime: string -> bool)
    requires LocationErrors(loc, isIsoDateTime) == []
    ensures LocationType(loc) == "maloId" <==> IsMaloId(LocationKey(loc).value)
    ensures LocationType(loc) == "neloId" <==> IsNeloId(LocationKey(loc).value)
  {
    AcceptedLocationKey(loc, isIsoDateTime);
    LocationKindsDisjoint(LocationKey(loc).value);
  }

  /** A document with an empty `maloId` and a valid `neloId` is accepted and
      stored under its network location id, yet the submit handler labels it
      a market location. */
  lemma LocationTypeAsWrittenMislabels(isIsoDateTime: string -> bool)
    requires isIsoDateTime("2024-01-01T00:00:00Z") && isIsoDateTime("2025-01-01T00:00:00Z")
    ensures var loc := MislabelledLocation();
      && LocationErrors(loc, isIsoDateTime) == []
      && LocationKey(loc) == Some("E1234567890")
      && IsNeloId(LocationKey(loc).value)
      && LocationTypeAsWritten(loc) == "maloId"
      && LocationType(loc) == "neloId"
  {
    var loc := MislabelledLocation();
    NeloIdOfAccepted("123456789", '0');
    assert NeloIdOf("123456789", '0') == "E1234567890";
    var slices := loc.calculationFormulaTimeSlices.value;
    assert WellFormedTimeSlice(slices[0], isIsoDateTime);
    assert WellFormedLocation(loc, isIsoDateTime);
    LocationValid(loc, isIsoDateTime);
  }

  /** The two labels differ exactly on a present but empty `maloId`. */
  lemma LocationTypesDifferOnEmptyMaloId(loc: FormulaLocation)
    ensures LocationTypeAsWritten(loc) != LocationType(loc) <==> loc.maloId == Some("")
  {
  }

  function MislabelledLocation(): FormulaLocation
  {
    var formula := CalculationFormula(Absent, None, Absent, Absent, None, Some(Operand(None, None, Some("x"), None)));
    var slice := TimeSlice(Some(1), Some(ValidData), Some("2024-01-01T00:00:00Z"), Some("2025-01-01T00:00:00Z"), Some(formula));
    FormulaLocation(Some(""), Some("E1234567890"), Some([slice]))
  }

  /** The time slices of an accepted document (always present). */
  function AcceptedSlices(loc: FormulaLocation): seq<TimeSlice>
  {
    loc.calculationFormulaTimeSlices.GetOr([])
  }

  function SliceIds(slices: seq<TimeSlice>): (ids: seq<Option<int>>)
    ensures |ids| == |slices| && forall i :: 0 <= i < |slices| ==> ids[i] == slices[i].timeSliceId
  {
    seq(|slices|, i requires 0 <= i < |slices| => slices[i].timeSliceId)
  }

  // ---------------------------------------------------------------------
  // Calculation
  // ---------------------------------------------------------------------

  datatype CalculationStatus = Processing | Completed | Failed

  datatype CalculationError = CalculationError(code: string, message: string)

  datatype CalculationRecord = CalculationRecord(
    calculationId: string, locationId: string, timeSliceId: Option<int>, status: CalculationStatus, acceptedAt: string,
    outputTimeSeriesId: Option<string>, completedAt: Option<string>, intervalsCalculated: Option<nat>,
    errors: seq<CalculationError>)

  /** A calculated series; its market or network location id is set by the
      format of the location id it was calculated for. */
  datatype OutputSeries = OutputSeries(
    timeSeriesId: string, marketLocationId: Option<string>, networkLocationId: Option<string>,
    measurementType: string, unit: string, resolution: string, intervals: seq<OutputInterval>,
    calculatedBy: string, timeSliceId: Option<int>, calculationId: string, calculatedAt: string)

  datatype CalculationResponse =
    | CalculationAccepted(calculationId: string, status: CalculationStatus, acceptedAt: string)
    | NotFound(message: string)

  /** Python's `str` of an optional text or integer (`None` when absent). */
  function OptionText(o: Option<string>): string
  {
    if o.Some? then o.value else "None"
  }

  function OptionIntText(o: Option<int>): string
  {
    if o.Some? then IntToString(o.value) else "None"
  }

  function FormulaNotFound(locationId: Option<string>): string
  {
    "Formula for location " + OptionText(locationId) + " not found"
  }

  function SliceNotFound(timeSliceId: Option<int>): string
  {
    "Time slice " + OptionIntText(timeSliceId) + " not found in formula"
  }

  /** `str(e)` of the interpreter's exceptions. */
  function ErrorText(e: EvalError): string
  {
    match e
    case MissingKey(k) => "'" + k + "'"
    case InvalidConst(t) => "could not convert string to float: '" + t + "'"
  }

  function CalculatedSeries(id: string, locationId: string, timeSliceId: Option<int>, calculationId: string,
                            intervals: seq<OutputInterval>, now: string): OutputSeries
  {
    OutputSeries(id,
      if IsMaloId(locationId) then Some(locationId) else None,
      if IsNeloId(locationId) then Some(locationId) else None,
      "CALCULATED", "KWH", "PT15M", intervals, locationId, timeSliceId, calculationId, now)
  }

  /** A series calculated for a stored location names it as exactly one of
      a market or a network location. */
  lemma CalculatedSeriesNamesItsLocation(loc: FormulaLocation, isIsoDateTime: string -> bool, id: string,
                                         timeSliceId: Option<int>, calculationId: string, intervals: seq<OutputInterval>, now: string)
    requires LocationErrors(loc, isIsoDateTime) == []
    ensures var s := CalculatedSeries(id, LocationKey(loc).value, timeSliceId, calculationId, intervals, now);
      && (s.marketLocationId.Some? != s.networkLocationId.Some?)
      && (s.marketLocationId.Some? ==> s.marketLocationId == LocationKey(loc) && IsTruthyText(loc.maloId))
      && (s.networkLocationId.Some? ==> s.networkLocationId == LocationKey(loc) && IsTruthyText(loc.neloId))
  {
    AcceptedLocationKey(loc, isIsoDateTime);
    LocationKindsDisjoint(LocationKey(loc).value);
  }

  /** The record a calculation leaves behind: completed with its output
      series id and interval count, or failed with one calculation error. */
  function FinalRecord(calculationId: string, locationId: string, timeSliceId: Option<int>, now: string,
                       outputTimeSeriesId: string, result: Result<seq<OutputInterval>, EvalError>): (r: CalculationRecord)
    ensures r.calculationId == calculationId && r.locationId == locationId && r.timeSliceId == timeSliceId
    ensures r.status == Completed <==> result.Ok?
    ensures r.status == Failed <==> result.Err?
    ensures result.Ok? ==> r.outputTimeSeriesId == Some(outputTimeSeriesId) && r.intervalsCalculated == Some(|result.value|)
    ensures result.Err? ==> r.errors == [CalculationError("CALCULATION_ERROR", ErrorText(result.error))]
  {
    var started := CalculationRecord(calculationId, locationId, timeSliceId, Processing, now, None, None, None, []);
    if result.Ok? then
      started.(status := Completed, outputTimeSeriesId := Some(outputTimeSeriesId), completedAt := Some(now),
               intervalsCalculated := Some(|result.value|))
    else
      started.(status := Failed, errors := [CalculationError("CALCULATION_ERROR", ErrorText(result.error))])
  }

  /** The first time slice with the requested id, or `|slices|`. */
  function SliceIndex(slices: seq<TimeSlice>, id: Option<int>): (k: nat)
    ensures k <= |slices|
    ensures forall j :: 0 <= j < k ==> slices[j].timeSliceId != id
    ensures k < |slices| ==> slices[k].timeSliceId == id
  {
    if |slices| == 0 then 0
    else if slices[0].timeSliceId == id then 0
    else 1 + SliceIndex(slices[1..], id)
  }

  /** The lookup loop that stops at the first matching slice. */
  method FindTimeSlice(slices: seq<TimeSlice>, id: Option<int>) returns (k: nat)
    ensures k <= |slices|
    ensures forall j :: 0 <= j < k ==> slices[j].timeSliceId != id
    ensures k < |slices| ==> slices[k].timeSliceId == id
    ensures k == SliceIndex(slices, id)
  {
    k := 0;
    while k < |slices|
      invariant k <= |slices|
      invariant forall j :: 0 <= j < k ==> slices[j].timeSliceId != id
    {
      if slices[k].timeSliceId == id {
        return;
      }
      k := k + 1;
    }
  }

  /** Every time slice of an accepted document calculates on any input series
      with numeric quantities, so such a calculation never ends in `Failed`. */
  lemma AcceptedSliceCalculates(loc: FormulaLocation, i: nat, input: InputData, isIsoDateTime: string -> bool)
    requires LocationErrors(loc, isIsoDateTime) == []
    requires i < |AcceptedSlices(loc)|
    ensures TimeSliceResult(AcceptedSlices(loc)[i], input).Ok?
  {
    LocationValid(loc, isIsoDateTime);
    ValidSliceCalculates(AcceptedSlices(loc)[i], input, isIsoDateTime);
  }

  // ---------------------------------------------------------------------
  // The server state
  // ---------------------------------------------------------------------

  /** Every stored document passed validation and sits under its own location id. */
  ghost predicate LocationsValid(locations: map<string, StoredLocation>, isIsoDateTime: string -> bool)
  {
    forall k :: k in locations ==>
      LocationErrors(locations[k].data, isIsoDateTime) == [] && LocationKey(locations[k].data) == Some(k)
  }

  /** Every cached response is an acceptance, under its own transaction id, of a stored location. */
  ghost predicate TransactionsValid(transactions: map<string, SubmitResponse>, locations: map<string, StoredLocation>)
  {
    forall t :: t in transactions ==>
      transactions[t].Accepted? && transactions[t].transactionId == t && transactions[t].locationId in locations
  }

  /** Every recorded calculation is finished and under its own id, and a
      completed one names a stored output series. */
  ghost predicate CalculationsValid(calculations: map<string, CalculationRecord>, timeSeries: map<string, OutputSeries>)
  {
    forall c :: c in calculations ==>
      && calculations[c].calculationId == c
      && calculations[c].status != Processing
      && (calculations[c].status == Completed ==>
            calculations[c].outputTimeSeriesId.Some? && calculations[c].outputTimeSeriesId.value in timeSeries)
  }

  /** Storing an accepted document under its key and caching its acceptance
      keeps the stores consistent. */
  lemma StoreKeepsValid(locations: map<string, StoredLocation>, transactions: map<string, SubmitResponse>,
                        isIsoDateTime: string -> bool, entry: StoredLocation, response: SubmitResponse)
    requires LocationsValid(locations, isIsoDateTime) && TransactionsValid(transactions, locations)
    requires LocationErrors(entry.data, isIsoDateTime) == []
    requires response.Accepted? && LocationKey(entry.data) == Some(response.locationId)
    ensures LocationsValid(locations[response.locationId := entry], isIsoDateTime)
    ensures TransactionsValid(transactions[response.transactionId := response], locations[response.locationId := entry])
  {
    var stored := locations[response.locationId := entry];
    forall k | k in stored
      ensures LocationErrors(stored[k].data, isIsoDateTime) == [] && LocationKey(stored[k].data) == Some(k)
    {
      if k != response.locationId {
        assert stored[k] == locations[k];
      }
    }
    var cached := transactions[response.transactionId := response];
    forall t | t in cached
      ensures cached[t].Accepted? && cached[t].transactionId == t && cached[t].locationId in stored
    {
      if t != response.transactionId {
        assert cached[t] == transactions[t];
      }
    }
  }

  /** Recording a finished calculation, with its output series stored when
      it completed, keeps the calculation records consistent. */
  lemma RecordKeepsValid(calculations: map<string, CalculationRecord>, timeSeries: map<string, OutputSeries>,
                         record: CalculationRecord, newSeries: map<string, OutputSeries>)
    requires CalculationsValid(calculations, timeSeries)
    requires timeSeries.Keys <= newSeries.Keys
    requires record.status != Processing
    requires record.status == Completed ==> record.outputTimeSeriesId.Some? && record.outputTimeSeriesId.value in newSeries
    ensures CalculationsValid(calculations[record.calculationId := record], newSeries)
  {
  }

  class Registry {
    /** The ISO 8601 date-time check the validator applies to periods. */
    const isIsoDateTime: string -> bool
    var locations: map<string, StoredLocation>
    var transactions: map<string, SubmitResponse>
    var calculations: map<string, CalculationRecord>
    var timeSeries: map<string, OutputSeries>

    /** Stored documents passed validation and sit under their own location
        id; cached responses are acceptances under their own transaction id,
        for a stored location; finished calculations are recorded under their
        id, and a completed one names a stored output series. */
    ghost predicate Valid()
      reads this
    {
      && LocationsValid(locations, isIsoDateTime)
      && TransactionsValid(transactions, locations)
      && CalculationsValid(calculations, timeSeries)
    }

    constructor(isIsoDateTime: string -> bool)
      ensures Valid()
      ensures this.isIsoDateTime == isIsoDateTime
      ensures locations == map[] && transactions == map[] && calculations == map[] && timeSeries == map[]
    {
      this.isIsoDateTime := isIsoDateTime;
      locations := map[];
      transactions := map[];
      calculations := map[];
      timeSeries := map[];
    }

    /** A retry names an earlier transaction whose response is cached. */
    predicate Replays(initialTransactionId: Option<string>)
      reads this
    {
      IsTruthyText(initialTransactionId) && initialTransactionId.value in transactions
    }

    /** The formula submission. `body` is `None` for a missing body or one
        Python reads as false (an empty object). The acceptance labels the
        location as the handler does, by the presence of the `maloId` key. */
    method Submit(transactionId: string, creationDateTime: string, initialTransactionId: Option<string>,
                  body: Option<FormulaLocation>, now: string) returns (response: SubmitResponse)
      requires Valid()
      modifies this
      ensures Valid()
      ensures old(Replays(initialTransactionId)) ==>
        response == old(transactions[initialTransactionId.value]) && unchanged(this)
      ensures !old(Replays(initialTransactionId)) && body.None? ==>
        response == BodyRequired(transactionId) && unchanged(this)
      ensures !old(Replays(initialTransactionId)) && body.Some? && LocationErrors(body.value, isIsoDateTime) != [] ==>
        response == ValidationFailed(transactionId, LocationErrors(body.value, isIsoDateTime)) && unchanged(this)
      ensures !old(Replays(initialTransactionId)) && body.Some? && LocationErrors(body.value, isIsoDateTime) == [] ==>
        && response.Accepted?
        && LocationKey(body.value) == Some(response.locationId)
        && response == Accepted(transactionId, now, response.locationId, LocationTypeAsWritten(body.value),
                                |AcceptedSlices(body.value)|, SliceIds(AcceptedSlices(body.value)))
        && locations == old(locations)[response.locationId := StoredLocation(body.value, transactionId, creationDateTime, now)]
        && transactions == old(transactions)[transactionId := response]
        && calculations == old(calculations) && timeSeries == old(timeSeries)
    {
      if IsTruthyText(initialTransactionId) && initialTransactionId.value in transactions {
        return transactions[initialTransactionId.value];
      }
      if body.None? {
        return BodyRequired(transactionId);
      }
      var data := body.value;
      var errors := ValidateFormulaLocation(data, isIsoDateTime);
      if errors != [] {
        return ValidationFailed(transactionId, errors);
      }
      AcceptedLocationKey(data, isIsoDateTime);
      var locationId := PreferTruthy(data.maloId, data.neloId).value;
      var entry := StoredLocation(data, transactionId, creationDateTime, now);
      var slices := AcceptedSlices(data);
      response := Accepted(transactionId, now, locationId, LocationTypeAsWritten(data), |slices|, SliceIds(slices));
      StoreKeepsValid(locations, transactions, isIsoDateTime, entry, response);
      locations := locations[locationId := entry];
      transactions := transactions[transactionId := response];
    }

    /** The calculation request: `maloId`/`neloId` name the stored location,
        `input` is the resolved input series, `now` the clock. */
    method Calculate(calculationId: string, maloId: Option<string>, neloId: Option<string>, timeSliceId: Option<int>,
                     outputTimeSeriesId: string, input: InputData, now: string) returns (response: CalculationResponse)
      requires Valid()
      modifies this
      ensures Valid()
      ensures var key := PreferTruthy(maloId, neloId);
        (key.None? || key.value !in old(locations)) ==>
          response == NotFound(FormulaNotFound(key)) && unchanged(this)
      ensures var key := PreferTruthy(maloId, neloId);
        key.Some? && key.value in old(locations) ==>
          var slices := AcceptedSlices(old(locations)[key.value].data);
          SliceIndex(slices, timeSliceId) == |slices| ==>
            response == NotFound(SliceNotFound(timeSliceId)) && unchanged(this)
      ensures var key := PreferTruthy(maloId, neloId);
        key.Some? && key.value in old(locations) ==>
          var slices := AcceptedSlices(old(locations)[key.value].data);
          var k := SliceIndex(slices, timeSliceId);
          k < |slices| ==>
            var result := TimeSliceResult(slices[k], input);
            && locations == old(locations) && transactions == old(transactions)
            && response == CalculationAccepted(calculationId, if result.Ok? then Completed else Failed, now)
            && calculations == old(calculations)[calculationId :=
                 FinalRecord(calculationId, key.value, timeSliceId, now, outputTimeSeriesId, result)]
            && timeSeries == (if result.Ok? then old(timeSeries)[outputTimeSeriesId :=
                 CalculatedSeries(outputTimeSeriesId, key.value, timeSliceId, calculationId, result.value, now)]
                 else old(timeSeries))
    {
      var key := PreferTruthy(maloId, neloId);
      if key.None? || key.value !in locations {
        return NotFound(FormulaNotFound(key));
      }
      var locationId := key.value;
      var slices := AcceptedSlices(locations[locationId].data);
      var k := FindTimeSlice(slices, timeSliceId);
      if k == |slices| {
        return NotFound(SliceNotFound(timeSliceId));
      }
      response := Run(calculationId, locationId, timeSliceId, slices[k], outputTimeSeriesId, input, now);
    }

    /** Records the calculation as processing, calculates the time slice, and
        records the outcome: the output series and a completed record, or a
        failed record carrying the exception's text. */
    method Run(calculationId: string, locationId: string, timeSliceId: Option<int>, slice: TimeSlice,
               outputTimeSeriesId: string, input: InputData, now: string) returns (response: CalculationResponse)
      requires Valid()
      modifies this
      ensures Valid()
      ensures var result := TimeSliceResult(slice, input);
        && locations == old(locations) && transactions == old(transactions)
        && response == CalculationAccepted(calculationId, if result.Ok? then Completed else Failed, now)
        && calculations == old(calculations)[calculationId :=
             FinalRecord(calculationId, locationId, timeSliceId, now, outputTimeSeriesId, result)]
        && timeSeries == (if result.Ok? then old(timeSeries)[outputTimeSeriesId :=
             CalculatedSeries(outputTimeSeriesId, locationId, timeSliceId, calculationId, result.value, now)]
             else old(timeSeries))
    {
      var started := CalculationRecord(calculationId, locationId, timeSliceId, Processing, now, None, None, None, []);
      calculations := calculations[calculationId := started];
      var result := CalculateTimeSlice(slice, input);
      if result.Ok? {
        timeSeries := timeSeries[outputTimeSeriesId :=
          CalculatedSeries(outputTimeSeriesId, locationId, timeSliceId, calculationId, result.value, now)];
      }
      var record := FinalRecord(calculationId, locationId, timeSliceId, now, outputTimeSeriesId, result);
      RecordKeepsValid(old(calculations), old(timeSeries), record, timeSeries);
      calculations := calculations[calculationId := record];
      response := CalculationAccepted(calculationId, record.status, now);
    }
  }
}

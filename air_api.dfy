/**
 * The HTTP service's own copy of the PM2.5 classifier and assessment, the
 * fetcher behind `/get_readings`, and the API-key gate in front of it.
 */
module AirApi {
  import opened Wrappers
  import opened Values
  import opened Breakpoints
  import opened Shaping

  /**
   * The pre-2024 U.S. EPA AQI breakpoints for PM2.5, in µg/m³, except that
   * the EPA's two top rows (250.5-350.4 and 350.5-500.4) are one row ending
   * at 500.0, so 500.1 to 500.4 is beyond index.
   */
  const PM25_BUCKETS: seq<Row> := [
    Row(0.0, 12.0, "good"),
    Row(12.1, 35.4, "moderate"),
    Row(35.5, 55.4, "unhealthy for sensitive groups"),
    Row(55.5, 150.4, "unhealthy"),
    Row(150.5, 250.4, "very unhealthy"),
    Row(250.5, 500.0, "hazardous")
  ]

  lemma Pm25BucketsAscending()
    ensures Ascending(PM25_BUCKETS)
  {
  }

  /**
   * `bucket_pm25(value)`: the first row whose inclusive range holds the
   * value; a value that is not a number makes the first comparison raise.
   */
  function BucketPm25(value: Value): (r: Result<string>)
    ensures r.Err? <==> AsNumber(value).None?
    ensures r.Err? ==> r.msg == ComparisonError(value)
    ensures r.Ok? ==> r.value == BEYOND_INDEX || exists i :: 0 <= i < |PM25_BUCKETS| && r.value == PM25_BUCKETS[i].category
  {
    match AsNumber(value)
    case None => Err(ComparisonError(value))
    case Some(x) => Ok(Classify(PM25_BUCKETS, x))
  }

  /**
   * For every number (bool, int or float), each category holds exactly the
   * values of its inclusive range, and everything else, including the values
   * between two rows, is beyond index.
   */
  lemma BucketPm25Categories(v: Value, x: real)
    requires AsNumber(v) == Some(x)
    ensures BucketPm25(v) == Ok("good") <==> 0.0 <= x <= 12.0
    ensures BucketPm25(v) == Ok("moderate") <==> 12.1 <= x <= 35.4
    ensures BucketPm25(v) == Ok("unhealthy for sensitive groups") <==> 35.5 <= x <= 55.4
    ensures BucketPm25(v) == Ok("unhealthy") <==> 55.5 <= x <= 150.4
    ensures BucketPm25(v) == Ok("very unhealthy") <==> 150.5 <= x <= 250.4
    ensures BucketPm25(v) == Ok("hazardous") <==> 250.5 <= x <= 500.0
    ensures BucketPm25(v) == Ok(BEYOND_INDEX) <==>
      || x < 0.0 || 12.0 < x < 12.1 || 35.4 < x < 35.5 || 55.4 < x < 55.5
      || 150.4 < x < 150.5 || 250.4 < x < 250.5 || 500.0 < x
  {
    ClassifyPm25(x);
  }

  /** The first-match search over the table, written out row by row. */
  lemma ClassifyPm25(x: real)
    ensures Classify(PM25_BUCKETS, x) ==
      if 0.0 <= x <= 12.0 then "good"
      else if 12.1 <= x <= 35.4 then "moderate"
      else if 35.5 <= x <= 55.4 then "unhealthy for sensitive groups"
      else if 55.5 <= x <= 150.4 then "unhealthy"
      else if 150.5 <= x <= 250.4 then "very unhealthy"
      else if 250.5 <= x <= 500.0 then "hazardous"
      else BEYOND_INDEX
  {
    var t := PM25_BUCKETS;
    Pm25BucketsAscending();
    if 0.0 <= x <= 12.0 {
      ClassifyUnique(t, x, 0);
    } else if 12.1 <= x <= 35.4 {
      ClassifyUnique(t, x, 1);
    } else if 35.5 <= x <= 55.4 {
      ClassifyUnique(t, x, 2);
    } else if 55.5 <= x <= 150.4 {
      ClassifyUnique(t, x, 3);
    } else if 150.5 <= x <= 250.4 {
      ClassifyUnique(t, x, 4);
    } else if 250.5 <= x <= 500.0 {
      ClassifyUnique(t, x, 5);
    } else {
      forall i | 0 <= i < |t| ensures !InRow(t[i], x) {
      }
      ClassifyNoMatch(t, x);
    }
  }

  /** The boundary values: bounds are inclusive and the gaps are not covered. */
  lemma BucketPm25Boundaries()
    ensures BucketPm25(Float(0.0)) == Ok("good")
    ensures BucketPm25(Float(12.0)) == Ok("good")
    ensures BucketPm25(Float(12.05)) == Ok(BEYOND_INDEX)
    ensures BucketPm25(Float(12.1)) == Ok("moderate")
    ensures BucketPm25(Float(35.45)) == Ok(BEYOND_INDEX)
    ensures BucketPm25(Float(500.0)) == Ok("hazardous")
    ensures BucketPm25(Float(500.1)) == Ok(BEYOND_INDEX)
    ensures BucketPm25(Float(-0.1)) == Ok(BEYOND_INDEX)
  {
    BucketPm25Categories(Float(0.0), 0.0);
    BucketPm25Categories(Float(12.0), 12.0);
    BucketPm25Categories(Float(12.05), 12.05);
    BucketPm25Categories(Float(12.1), 12.1);
    BucketPm25Categories(Float(35.45), 35.45);
    BucketPm25Categories(Float(500.0), 500.0);
    BucketPm25Categories(Float(500.1), 500.1);
    BucketPm25Categories(Float(-0.1), -0.1);
  }

  /**
   * `assess_air_quality(readings)`: a selected value that is not None is
   * classified (so a zero is "good"), or raises when it is not a number;
   * a selected None gives an empty status.
   */
  function AssessAirQuality(readings: Value): (r: Result<map<string, Value>>)
    ensures !readings.Dict? ==> r == Err(NoGetError(readings))
    ensures readings.Dict? ==> (r == Ok(map[]) <==> SelectedPm25(readings.fields) == Null)
    ensures readings.Dict? && SelectedPm25(readings.fields) != Null ==>
      match BucketPm25(SelectedPm25(readings.fields))
      case Ok(category) => r == Ok(map["pm2_5_category" := Str(category)])
      case Err(msg) => r == Err(msg)
  {
    if !readings.Dict? then Err(NoGetError(readings))
    else
      var pm25 := SelectedPm25(readings.fields);
      if pm25 != Null then
        match BucketPm25(pm25)
        case Ok(category) =>
          var status := map["pm2_5_category" := Str(category)];
          assert "pm2_5_category" in status;
          Ok(status)
        case Err(msg) => Err(msg)
      else Ok(map[])
  }

  /**
   * What `get_viam_readings` returns for a given outcome of the remote call:
   * exactly `{"error": msg}` when the call or the assessment raised,
   * otherwise the untouched readings beside their assessed status.
   */
  function ViamResult(remote: Outcome): (r: Value)
    ensures r.Dict?
    ensures IsErrorResult(r) <==> remote.Err? || AssessAirQuality(remote.value).Err?
    ensures IsErrorResult(r) ==> r.fields.Keys == {"error"}
    ensures remote.Err? ==> r == ErrorResult(remote.msg)
    ensures remote.Ok? && AssessAirQuality(remote.value).Err? ==> r == ErrorResult(AssessAirQuality(remote.value).msg)
    ensures !IsErrorResult(r) ==>
      && r.fields.Keys == {"readings", "status"}
      && r.fields["readings"] == remote.value
      && r.fields["status"] == Dict(AssessAirQuality(remote.value).value)
  {
    match remote
    case Err(msg) => ErrorResult(msg)
    case Ok(readings) =>
      match AssessAirQuality(readings)
      case Err(msg) => ErrorResult(msg)
      case Ok(status) => Dict(map["readings" := readings, "status" := Dict(status)])
  }

  /** `get_viam_readings`: call the robot, assess, and contain every exception. */
  method GetViamReadings(remote: Outcome) returns (r: Value)
    ensures r == ViamResult(remote)
  {
    r := ViamResult(remote);
  }

  datatype Response = Unauthorized(status: int, detail: string) | Body(json: Value)

  /**
   * The `/get_readings` handler: the `X-API-Key` header (None when absent) is
   * compared with LOCAL_API_KEY (None when unset); on a mismatch it raises
   * HTTP 401 without calling the robot. That the robot is not called shows
   * in the contract as the 401 response not depending on `remote`; the ghost
   * `fetched` only marks the branch that calls it.
   */
  method GetReadings(apiKey: Option<string>, localApiKey: Option<string>, remote: Outcome)
    returns (resp: Response, ghost fetched: bool)
    ensures apiKey != localApiKey ==> resp == Unauthorized(401, "Unauthorized") && !fetched
    ensures apiKey == localApiKey ==> resp == Body(ViamResult(remote)) && fetched
  {
    fetched := false;
    if apiKey != localApiKey {
      resp := Unauthorized(401, "Unauthorized");
      return;
    }
    fetched := true;
    var body := GetViamReadings(remote);
    resp := Body(body);
  }
}

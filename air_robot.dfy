/**
 * The air-quality robot's classifier, assessment and fetcher. The table is
 * a separate copy of the service's; the assessment tests truthiness where
 * the service tests for None.
 */
module AirRobot {
  import opened Wrappers
  import opened Values
  import opened Breakpoints
  import opened Shaping

  /**
   * The pre-2024 U.S. EPA AQI breakpoints for PM2.5, in µg/m³, except that
   * the EPA's two top rows (250.5-350.4 and 350.5-500.4) are one row ending
   * at 500.0, so 500.1 to 500.4 is beyond index.
   */
  const PM25_BUCKETS: seq<Row> := [
    Row(0.0, 12.0, "good"),
    Row(12.1, 35.4, "moderate"),
    Row(35.5, 55.4, "unhealthy for sensitive groups"),
    Row(55.5, 150.4, "unhealthy"),
    Row(150.5, 250.4, "very unhealthy"),
    Row(250.5, 500.0, "hazardous")
  ]

  /** `bucket_pm25(value)`, the same first-match search as the service's. */
  function BucketPm25(value: Value): (r: Result<string>)
    ensures r.Err? <==> AsNumber(value).None?
    ensures r.Err? ==> r.msg == ComparisonError(value)
    ensures r.Ok? ==> r.value == BEYOND_INDEX || exists i :: 0 <= i < |PM25_BUCKETS| && r.value == PM25_BUCKETS[i].category
  {
    match AsNumber(value)
    case None => Err(ComparisonError(value))
    case Some(x) => Ok(Classify(PM25_BUCKETS, x))
  }

  /**
   * `assess_air_quality(readings)`: a selected value is classified, or
   * raises when it is not a number, only when it is truthy, so None, every
   * zero and every empty string or container give an empty status.
   */
  function AssessAirQuality(readings: Value): (r: Result<map<string, Value>>)
    ensures !readings.Dict? ==> r == Err(NoGetError(readings))
    ensures readings.Dict? ==> (r == Ok(map[]) <==> !Truthy(SelectedPm25(readings.fields)))
    ensures readings.Dict? && Truthy(SelectedPm25(readings.fields)) ==>
      match BucketPm25(SelectedPm25(readings.fields))
      case Ok(category) => r == Ok(map["pm2_5_category" := Str(category)])
      case Err(msg) => r == Err(msg)
  {
    if !readings.Dict? then Err(NoGetError(readings))
    else
      var pm25 := SelectedPm25(readings.fields);
      if Truthy(pm25) then
        match BucketPm25(pm25)
        case Ok(category) =>
          var status := map["pm2_5_category" := Str(category)];
          assert "pm2_5_category" in status;
          Ok(status)
        case Err(msg) => Err(msg)
      else Ok(map[])
  }

  /**
   * `get_air_readings()` for a given outcome of the remote call: exactly
   * `{"error": msg}` when the call or the assessment raised, otherwise the
   * untouched readings beside their assessed status.
   */
  function GetAirReadings(remote: Outcome): (r: Value)
    ensures r.Dict?
    ensures IsErrorResult(r) <==> remote.Err? || AssessAirQuality(remote.value).Err?
    ensures IsErrorResult(r) ==> r.fields.Keys == {"error"}
    ensures remote.Err? ==> r == ErrorResult(remote.msg)
    ensures remote.Ok? && AssessAirQuality(remote.value).Err? ==> r == ErrorResult(AssessAirQuality(remote.value).msg)
    ensures !IsErrorResult(r) ==>
      && r.fields.Keys == {"readings", "status"}
      && r.fields["readings"] == remote.value
      && r.fields["status"] == Dict(AssessAirQuality(remote.value).value)
  {
    match remote
    case Err(msg) => ErrorResult(msg)
    case Ok(readings) =>
      match AssessAirQuality(readings)
      case Err(msg) => ErrorResult(msg)
      case Ok(status) => Dict(map["readings" := readings, "status" := Dict(status)])
  }
}

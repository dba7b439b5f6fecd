/**
 * How the service's and the robot's copies of the PM2.5 assessment relate:
 * the classifiers are the same, and the assessments differ exactly on a
 * selected value that is falsy but not None (a zero, False, an empty string
 * or container), which happens only when pm2_5_atm is falsy and the
 * pm2_5_CF1 it falls back to is falsy too.
 */
module Copies {
  import opened Wrappers
  import opened Values
  import opened Breakpoints
  import opened Shaping
  import AirApi
  import AirRobot

  /** The two classifiers agree on every value. */
  lemma BucketCopiesAgree(value: Value)
    ensures AirRobot.BucketPm25(value) == AirApi.BucketPm25(value)
  {
    assert AirRobot.PM25_BUCKETS == AirApi.PM25_BUCKETS;
  }

  /**
   * The assessments agree except when the readings are a dict whose
   * selected value is falsy but not None: there the service classifies it
   * and the robot reports an empty status.
   */
  lemma AssessCopiesAgreeUnlessFalsy(readings: Value)
    ensures AirApi.AssessAirQuality(readings) == AirRobot.AssessAirQuality(readings) <==>
      !(readings.Dict? && SelectedPm25(readings.fields) != Null && !Truthy(SelectedPm25(readings.fields)))
  {
    if readings.Dict? {
      var pm25 := SelectedPm25(readings.fields);
      BucketCopiesAgree(pm25);
    }
  }

  /** With both fields zero the service reports "good" and the robot nothing. */
  lemma ZeroReadingsDiffer()
    ensures
      var readings := Dict(map["pm2_5_atm" := Int(0), "pm2_5_CF1" := Int(0)]);
      && AirApi.AssessAirQuality(readings) == Ok(map["pm2_5_category" := Str("good")])
      && AirRobot.AssessAirQuality(readings) == Ok(map[])
  {
    var fields := map["pm2_5_atm" := Int(0), "pm2_5_CF1" := Int(0)];
    assert SelectedPm25(fields) == Int(0);
    AirApi.BucketPm25Categories(Int(0), 0.0);
  }

  /** A zero pm2_5_atm falls back to pm2_5_CF1 in both copies, per Python's `or`. */
  lemma ZeroAtmFallsBack()
    ensures
      var readings := Dict(map["pm2_5_atm" := Float(0.0), "pm2_5_CF1" := Float(20.0)]);
      && AirApi.AssessAirQuality(readings) == Ok(map["pm2_5_category" := Str("moderate")])
      && AirRobot.AssessAirQuality(readings) == Ok(map["pm2_5_category" := Str("moderate")])
  {
    var fields := map["pm2_5_atm" := Float(0.0), "pm2_5_CF1" := Float(20.0)];
    assert SelectedPm25(fields) == Float(20.0);
    AirApi.BucketPm25Categories(Float(20.0), 20.0);
    BucketCopiesAgree(Float(20.0));
  }

  /** A zero pm2_5_atm with no pm2_5_CF1 selects None, so both copies report nothing. */
  lemma ZeroAtmAloneEmpty()
    ensures
      var readings := Dict(map["pm2_5_atm" := Int(0)]);
      && AirApi.AssessAirQuality(readings) == Ok(map[])
      && AirRobot.AssessAirQuality(readings) == Ok(map[])
  {
    var fields := map["pm2_5_atm" := Int(0)];
    assert SelectedPm25(fields) == Null;
  }

  /**
   * An empty pm2_5_CF1 string is selected by both copies: the service
   * compares it with a float and raises, the robot finds it falsy and
   * reports nothing, so only the service's fetch returns an error.
   */
  lemma EmptyStringDiffers()
    ensures
      var readings := Dict(map["pm2_5_CF1" := Str("")]);
      && AirApi.AssessAirQuality(readings) == Err(ComparisonError(Str("")))
      && AirRobot.AssessAirQuality(readings) == Ok(map[])
      && IsErrorResult(AirApi.ViamResult(Ok(readings)))
      && AirRobot.GetAirReadings(Ok(readings)) == Dict(map["readings" := readings, "status" := Dict(map[])])
  {
    var fields := map["pm2_5_CF1" := Str("")];
    assert SelectedPm25(fields) == Str("");
  }

  /** A reading of 40.0 µg/m³ is unhealthy for sensitive groups in both copies. */
  lemma FortyExample()
    ensures
      var readings := Dict(map["pm2_5_atm" := Float(40.0)]);
      && AirApi.AssessAirQuality(readings) == Ok(map["pm2_5_category" := Str("unhealthy for sensitive groups")])
      && AirRobot.AssessAirQuality(readings) == Ok(map["pm2_5_category" := Str("unhealthy for sensitive groups")])
  {
    var fields := map["pm2_5_atm" := Float(40.0)];
    assert SelectedPm25(fields) == Float(40.0);
    AirApi.BucketPm25Categories(Float(40.0), 40.0);
    BucketCopiesAgree(Float(40.0));
  }
}

/** The presence robot's fetcher: the raw readings and their `detection_status`. */
module PresenceRobot {
  import opened Wrappers
  import opened Values
  import opened Shaping

  /**
   * `readings.get("detection_status") if isinstance(readings, dict) else None`:
   * no lookup is made on a value that is not a dict.
   */
  function PresenceState(readings: Value): (state: Value)
    ensures readings.Dict? && "detection_status" in readings.fields ==> state == readings.fields["detection_status"]
    ensures !(readings.Dict? && "detection_status" in readings.fields) ==> state == Null
  {
    if readings.Dict? then Get(readings.fields, "detection_status") else Null
  }

  /**
   * `get_presence_readings()` for a given outcome of the remote call: exactly
   * `{"error": msg}` on failure, otherwise exactly the untouched readings
   * and their presence state. Nothing after a successful read can raise.
   */
  function GetPresenceReadings(remote: Outcome): (r: Value)
    ensures r.Dict?
    ensures IsErrorResult(r) <==> remote.Err?
    ensures remote.Err? ==> r == ErrorResult(remote.msg) && r.fields.Keys == {"error"}
    ensures remote.Ok? ==>
      && r.fields.Keys == {"readings", "presence_state"}
      && r.fields["readings"] == remote.value
      && r.fields["presence_state"] == PresenceState(remote.value)
  {
    match remote
    case Err(msg) => ErrorResult(msg)
    case Ok(readings) => Dict(map["readings" := readings, "presence_state" := PresenceState(readings)])
  }

  /** An occupied reading is reported as such; a reading that is not a dict has no state. */
  lemma PresenceExamples()
    ensures GetPresenceReadings(Ok(Dict(map["detection_status" := Str("occupied")]))).fields["presence_state"] == Str("occupied")
    ensures GetPresenceReadings(Ok(List([Str("occupied")]))).fields["presence_state"] == Null
    ensures GetPresenceReadings(Ok(Dict(map["distance" := Int(120)]))).fields["presence_state"] == Null
  {
  }
}

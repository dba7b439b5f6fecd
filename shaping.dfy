/**
 * What the three fetchers share: the outcome of the remote sensor call, the
 * `{"error": msg}` result that their `except` clauses return, the messages
 * of the Python exceptions raised inside their `try` blocks, and the
 * `pm2_5_atm or pm2_5_CF1` selection both air-quality assessments make.
 */
module Shaping {
  import opened Wrappers
  import opened Values

  /**
   * One connect, resolve, read and close sequence against the robot:
   * the readings, or the message of the exception any of the steps raised.
   */
  type Outcome = Result<Value>

  /** `{"error": str(e)}` */
  function ErrorResult(msg: string): Value {
    Dict(map["error" := Str(msg)])
  }

  predicate IsErrorResult(v: Value) {
    v.Dict? && "error" in v.fields
  }

  const COMPARISON_PREFIX: string := "'<=' not supported between instances of 'float' and '"
  const NO_GET_SUFFIX: string := "' object has no attribute 'get'"

  /** The message of the TypeError raised by `0.0 <= v` when `v` is not a number. */
  function ComparisonError(v: Value): (msg: string)
    ensures |msg| == |COMPARISON_PREFIX| + |TypeName(v)| + 1
    ensures msg[..|COMPARISON_PREFIX|] == COMPARISON_PREFIX
    ensures msg[|COMPARISON_PREFIX|..|msg| - 1] == TypeName(v)
  {
    COMPARISON_PREFIX + TypeName(v) + "'"
  }

  /** The message of the AttributeError raised by `v.get` when `v` is not a dict. */
  function NoGetError(v: Value): (msg: string)
    ensures |msg| == 1 + |TypeName(v)| + |NO_GET_SUFFIX|
    ensures msg[1..1 + |TypeName(v)|] == TypeName(v)
    ensures msg[1 + |TypeName(v)|..] == NO_GET_SUFFIX
  {
    "'" + TypeName(v) + NO_GET_SUFFIX
  }

  /**
   * Each message names the offending value's type: two messages of the
   * same kind are equal exactly when the type names are.
   */
  lemma ErrorMessagesNameType(v: Value, w: Value)
    ensures ComparisonError(v) == ComparisonError(w) <==> TypeName(v) == TypeName(w)
    ensures NoGetError(v) == NoGetError(w) <==> TypeName(v) == TypeName(w)
  {
    if ComparisonError(v) == ComparisonError(w) {
      assert TypeName(v) == ComparisonError(v)[|COMPARISON_PREFIX|..|ComparisonError(v)| - 1];
    }
    if NoGetError(v) == NoGetError(w) {
      assert |TypeName(v)| == |TypeName(w)|;
      assert TypeName(v) == NoGetError(v)[1..1 + |TypeName(v)|];
    }
  }

  /** `readings.get("pm2_5_atm") or readings.get("pm2_5_CF1")` */
  function SelectedPm25(fields: map<string, Value>): (pm25: Value)
    ensures Truthy(Get(fields, "pm2_5_atm")) ==> pm25 == fields["pm2_5_atm"]
    ensures !Truthy(Get(fields, "pm2_5_atm")) ==> pm25 == Get(fields, "pm2_5_CF1")
    ensures "pm2_5_atm" !in fields && "pm2_5_CF1" !in fields ==> pm25 == Null
  {
    Or(Get(fields, "pm2_5_atm"), Get(fields, "pm2_5_CF1"))
  }
}

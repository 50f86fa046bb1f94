/** The shapes of the already-decoded JSON returned by the TfL StopPoint API.
    A field that may be absent from the JSON object is an `Option`; whether
    its absence is an error depends on how api/bus.py reads it (`data["k"]`
    raises, `data.get("k")` does not). */
module Upstream {
  import opened Wrappers

  /** Python's `KeyError`, carrying the missing key. */
  datatype KeyError = KeyError(key: string)

  /** One `{key, value}` entry of a stop's `additionalProperties`. */
  datatype RawProperty = RawProperty(key: Option<string>, value: Option<string>)

  /** One `{name}` entry of a stop's `lines`. */
  datatype RawLine = RawLine(name: Option<string>)

  /** One stop record, as returned for a single stop or as an element of
      `stopPoints` in a search by location. */
  datatype RawStop = RawStop(
    id: Option<string>,
    commonName: Option<string>,
    stopLetter: Option<string>,
    lines: Option<seq<RawLine>>,
    additionalProperties: Option<seq<RawProperty>>)

  /** The response of a search by location. */
  datatype RawStopPoints = RawStopPoints(stopPoints: Option<seq<RawStop>>)

  /** One element of the arrivals response of a stop. */
  datatype RawArrival = RawArrival(
    id: Option<string>,
    lineName: Option<string>,
    timeToStation: Option<int>)

  /** `data[key]` on a JSON object whose field `key` is `field`. */
  function Subscript<T>(field: Option<T>, key: string): (r: Result<T, KeyError>)
    ensures r.Success? <==> field.Some?
    ensures r.Success? ==> field == Some(r.value)
    ensures r.Failure? ==> r.error == KeyError(key)
  {
    match field
    case None => Failure(KeyError(key))
    case Some(v) => Success(v)
  }
}

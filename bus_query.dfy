/** `BusQuery.find_bus_stop` after the fetch (api/bus.py:108-112): every element
    of `stopPoints` goes through `BusStop.from_api`, in upstream order. */
module Query {
  import opened Wrappers
  import opened Upstream
  import opened Stops

  function FindBusStop(response: RawStopPoints): (r: Result<seq<BusStop>, KeyError>)
    ensures response.stopPoints.None? ==> r == Failure(KeyError("stopPoints"))
    ensures r.Success? <==>
      response.stopPoints.Some? &&
      forall i | 0 <= i < |response.stopPoints.value| :: FromApi(response.stopPoints.value[i]).Success?
    ensures r.Success? ==>
      var points := response.stopPoints.value;
      |r.value| == |points| && forall i | 0 <= i < |points| :: FromApi(points[i]) == Success(r.value[i])
  {
    var points :- Subscript(response.stopPoints, "stopPoints");
    MapAll(FromApi, points)
  }

  /** A search whose `stopPoints` holds a record `from_api` rejects fails with
      the error of the first such record; no partial list is returned. */
  lemma FindBusStopFailure(response: RawStopPoints) returns (i: nat)
    requires response.stopPoints.Some? && FindBusStop(response).Failure?
    ensures FirstFailureAt(FromApi, response.stopPoints.value, i, FindBusStop(response).error)
  {
    i := MapAllFirstFailure(FromApi, response.stopPoints.value);
  }

  /** Stops found by location keep the order of the upstream list: the stops
      of two concatenated lists are the stops of each, concatenated. */
  lemma {:induction false} FindBusStopAppend(xs: seq<RawStop>, ys: seq<RawStop>)
    requires FindBusStop(RawStopPoints(Some(xs))).Success?
    requires FindBusStop(RawStopPoints(Some(ys))).Success?
    ensures FindBusStop(RawStopPoints(Some(xs + ys))) ==
      Success(FindBusStop(RawStopPoints(Some(xs))).value + FindBusStop(RawStopPoints(Some(ys))).value)
  {
    MapAllAppend(FromApi, xs, ys);
  }
}

/** `BusStop.from_api` (api/bus.py:52-79): one raw stop record to a `BusStop`. */
module Stops {
  import opened Wrappers
  import opened Upstream
  import opened Lookup

  /** The normalised stop (api/bus.py:24-30). */
  datatype BusStop = BusStop(
    id: string,
    commonName: string,
    buses: seq<string>,
    stopLetter: Option<string>,
    towards: Option<string>,
    direction: Option<string>)

  const TowardsKey := "Towards"
  const DirectionKey := "Direction"

  /** `[line["name"] for line in lines]` (api/bus.py:75). */
  function LineNames(lines: seq<RawLine>): (r: Result<seq<string>, KeyError>)
    ensures r.Success? <==> forall i | 0 <= i < |lines| :: lines[i].name.Some?
    ensures r.Success? ==>
      |r.value| == |lines| && forall i | 0 <= i < |lines| :: lines[i].name == Some(r.value[i])
    ensures r.Failure? ==> r.error == KeyError("name")
  {
    MapAll((line: RawLine) => Subscript(line.name, "name"), lines)
  }

  /** The names of the lines serving a stop, in upstream order; a record
      without `lines` is served by none (`data.get("lines", [])`). */
  predicate ListsLines(lines: Option<seq<RawLine>>, buses: seq<string>) {
    match lines
    case None => buses == []
    case Some(ls) =>
      |buses| == |ls| && forall i | 0 <= i < |ls| :: ls[i].name == Some(buses[i])
  }

  /** Every field `from_api` reads is there and well-formed. */
  predicate WellFormed(data: RawStop) {
    && data.id.Some?
    && data.commonName.Some?
    && data.additionalProperties.Some?
    && (forall p | p in data.additionalProperties.value :: p.key.Some? && p.value.Some?)
    && (data.lines.Some? ==> forall l | l in data.lines.value :: l.name.Some?)
  }

  /** The record is normalised in the order Python evaluates it: both scans of
      `additionalProperties`, then `id`, `commonName`, `lines` and `stopLetter`. */
  function FromApi(data: RawStop): (r: Result<BusStop, KeyError>)
    ensures data.additionalProperties.None? ==> r == Failure(KeyError("additionalProperties"))
    ensures r.Success? <==>
      && data.additionalProperties.Some?
      && FirstMatch(data.additionalProperties.value, TowardsKey).Success?
      && FirstMatch(data.additionalProperties.value, DirectionKey).Success?
      && data.id.Some?
      && data.commonName.Some?
      && (data.lines.Some? ==> LineNames(data.lines.value).Success?)
    ensures r.Success? ==>
      && data.id == Some(r.value.id)
      && data.commonName == Some(r.value.commonName)
      && ListsLines(data.lines, r.value.buses)
      && r.value.stopLetter == data.stopLetter
      && FirstMatch(data.additionalProperties.value, TowardsKey) == Success(r.value.towards)
      && FirstMatch(data.additionalProperties.value, DirectionKey) == Success(r.value.direction)
    ensures r.Failure? ==>
      r.error ==
        if data.additionalProperties.None? then KeyError("additionalProperties")
        else if FirstMatch(data.additionalProperties.value, TowardsKey).Failure? then
          FirstMatch(data.additionalProperties.value, TowardsKey).error
        else if FirstMatch(data.additionalProperties.value, DirectionKey).Failure? then
          FirstMatch(data.additionalProperties.value, DirectionKey).error
        else if data.id.None? then KeyError("id")
        else if data.commonName.None? then KeyError("commonName")
        else KeyError("name")
  {
    var props :- Subscript(data.additionalProperties, "additionalProperties");
    var towards :- FirstMatch(props, TowardsKey);
    var direction :- FirstMatch(props, DirectionKey);
    var id :- Subscript(data.id, "id");
    var commonName :- Subscript(data.commonName, "commonName");
    var buses :- match data.lines
      case None => Success([])
      case Some(lines) => LineNames(lines);
    Success(BusStop(id, commonName, buses, data.stopLetter, towards, direction))
  }

  /** A well-formed record always normalises. */
  lemma FromApiWellFormed(data: RawStop)
    requires WellFormed(data)
    ensures FromApi(data).Success?
  {
  }

  /** `towards` is the value of the first `"Towards"` entry, later duplicates
      ignored, and `None` exactly when no entry has that key. */
  lemma {:induction false} FromApiTowards(data: RawStop)
    requires FromApi(data).Success?
    ensures var props := data.additionalProperties.value;
      && (FromApi(data).value.towards.None? <==> NoMatchBefore(props, TowardsKey, |props|))
      && forall i: nat | IsFirstMatch(props, TowardsKey, i) :: FromApi(data).value.towards == props[i].value
  {
    var props := data.additionalProperties.value;
    forall i: nat | IsFirstMatch(props, TowardsKey, i)
      ensures FromApi(data).value.towards == props[i].value
    {
      FirstMatchFound(props, TowardsKey, i);
    }
  }

  /** `direction` is the value of the first `"Direction"` entry, and `None`
      exactly when no entry has that key; the `"Towards"` entries play no part. */
  lemma {:induction false} FromApiDirection(data: RawStop)
    requires FromApi(data).Success?
    ensures var props := data.additionalProperties.value;
      && (FromApi(data).value.direction.None? <==> NoMatchBefore(props, DirectionKey, |props|))
      && (forall i: nat | IsFirstMatch(props, DirectionKey, i) :: FromApi(data).value.direction == props[i].value)
      && FirstMatch(Without(props, TowardsKey), DirectionKey) == Success(FromApi(data).value.direction)
  {
    var props := data.additionalProperties.value;
    forall i: nat | IsFirstMatch(props, DirectionKey, i)
      ensures FromApi(data).value.direction == props[i].value
    {
      FirstMatchFound(props, DirectionKey, i);
    }
    FirstMatchIgnoresOtherKeys(props, DirectionKey, TowardsKey);
  }

  /** A record with only an id, a name and a `"Towards"` property normalises
      to a stop with that destination and nothing else. */
  lemma BakerStreet()
    ensures FromApi(RawStop(Some("1"), Some("Baker St"), None, None,
                            Some([RawProperty(Some("Towards"), Some("Aldgate"))])))
         == Success(BusStop("1", "Baker St", [], None, Some("Aldgate"), None))
  {
  }
}

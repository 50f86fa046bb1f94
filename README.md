# strawberry-tfl: stop normalisation and arrival ordering

A Dafny model of the logic in `api/bus.py` of a GraphQL service over the TfL
(Transport for London) StopPoint API. The service fetches JSON from TfL and turns
it into two value objects:

- `BusStop` — built by `BusStop.from_api` from one stop record: `id` and
  `commonName` copied, `buses` the `name` of every entry of `lines`,
  `stop_letter` from the top-level `stopLetter`, and `towards` / `direction`
  as the value of the first `additionalProperties` entry whose key is exactly
  `"Towards"` / `"Direction"`.
- `Arrival` — built for each raw arrival record in `BusStop.arrivals`, after
  which the list is sorted by `time_to_station_` with Python's stable `sorted`.

`BusQuery.find_bus_stop` maps `from_api` over the `stopPoints` of a search by
location.

The model starts from the decoded JSON. Every field a raw record may lack is an
`Option`. A read written `data["k"]` in Python raises `KeyError` when the key is
missing; the model returns `Failure(KeyError("k"))` for it, in Python's
evaluation order. A read written `data.get("k")` is a plain `Option`.

Files:

- `wrappers.dfy` (`Wrappers`): `Option`, `Result`, and `MapAll`, a list
  comprehension whose element expression may raise.
- `upstream.dfy` (`Upstream`): the raw JSON shapes, `KeyError`, and `Subscript`
  for `data[key]`.
- `lookup.dfy` (`Lookup`): `FirstMatch`, the `next(generator, None)` lookup in
  `additionalProperties`.
- `bus_stop.dfy` (`Stops`): `BusStop` and `FromApi`.
- `arrivals.dfy` (`Arrivals`): `Arrival`, assembly, and the stable sort.
- `bus_query.dfy` (`Query`): `FindBusStop`.

The generator in `from_api` is consumed lazily. `property["key"]` is read for
each entry up to the first match. `property["value"]` is read only for the
matching entry. Nothing after the match is read. So a keyless entry before the
match raises `KeyError('key')`, and a keyless entry after it is never seen.
`FirstMatch` follows this exactly.

What the code does and does not do, stated plainly:

- `towards` and `direction` come only from `additionalProperties`
  (api/bus.py:54-70).
- `stop_letter` comes only from `data.get("stopLetter")` (api/bus.py:76). It is
  never looked up in `additionalProperties`.
- Nothing reads a `children` field, and nothing searches nested records.
- `resolve_reference` passes the whole response to `from_api`
  (api/bus.py:82-90). It does not pick a child record by id, so that path is
  `FromApi` unchanged.
- `data["additionalProperties"]` is required, and it is read before `id`
  (api/bus.py:57,73).
- No filter drops stops that have no letter.

## Model

| member | source | states |
|---|---|---|
| Wrappers.MapAll | api/bus.py:41-48 | a list comprehension succeeds iff every element does; on success there is one result per input, in input order; on failure the error comes from some element |
| Wrappers.MapAllFirstFailure | api/bus.py:110 | a failed comprehension reports the error of the FIRST failing element, and every element before it succeeded |
| Wrappers.MapAllAppend | api/bus.py:110 | mapping a concatenation gives the concatenation of the results, so the output keeps the upstream order |
| Upstream.Subscript | api/bus.py:73-74 | `data[key]` gives the field's value when it is present and `KeyError(key)` when it is absent |
| Lookup.FirstMatch | api/bus.py:54-61 | the lookup gives `None` exactly when every entry has a key and none equals the requested key; it never fails when every entry has a key and a value; a found value belongs to an entry with that key; the only errors are `KeyError('key')` and `KeyError('value')` |
| Lookup.FirstMatchFound | api/bus.py:54-61 | when entry i is the first with the requested key, the result is that entry's value, or `KeyError('value')` if it has none; later duplicates are ignored |
| Lookup.FirstMatchKeyless | api/bus.py:57-58 | a keyless entry reached before any match raises `KeyError('key')` |
| Lookup.FirstMatchStopsEarly | api/bus.py:54-61 | once the lookup has found a match or raised, appending entries does not change its outcome |
| Lookup.FirstMatchIgnoresOtherKeys | api/bus.py:63-70 | removing every entry with a different key, such as all `"Towards"` entries, does not change the `"Direction"` lookup |
| Stops.LineNames | api/bus.py:75 | `buses` has one name per entry of `lines`, in upstream order; a line without `name` raises `KeyError('name')` |
| Stops.FromApi | api/bus.py:52-79 | a missing `additionalProperties` raises first; the record normalises iff `additionalProperties`, `id` and `commonName` are present and both lookups and the line names succeed; `id` and `common_name` are copied; `buses` lists the line names, or is empty when `lines` is absent; `stop_letter` is the top-level `stopLetter`; `towards` and `direction` are the results of the two lookups; a failure reports the first error in Python's evaluation order: `additionalProperties`, the `"Towards"` lookup, the `"Direction"` lookup, `id`, `commonName`, then a line's `name` |
| Stops.FromApiWellFormed | api/bus.py:52-79 | a record with every field that `from_api` reads always normalises |
| Stops.FromApiTowards | api/bus.py:54-61 | `towards` is `None` exactly when no entry has key `"Towards"`, and otherwise is the value of the first such entry |
| Stops.FromApiDirection | api/bus.py:63-70 | `direction` is `None` exactly when no entry has key `"Direction"`, and otherwise is the value of the first such entry; it is the same with every `"Towards"` entry removed |
| Stops.BakerStreet | api/bus.py:52-79 | the record `{id "1", commonName "Baker St", additionalProperties [Towards: Aldgate]}` gives a stop towards Aldgate with no direction, no letter and no buses |
| Arrivals.ToArrival | api/bus.py:42-46 | an arrival is built iff `id`, `lineName` and `timeToStation` are present, with each copied verbatim; otherwise the `KeyError` names the first missing one, in that order |
| Arrivals.Assemble | api/bus.py:41-48 | one `Arrival` per raw record, in input order, or failure when some record lacks a field |
| Arrivals.InsertPermutes | api/bus.py:50 | inserting an arrival adds exactly that arrival and loses none |
| Arrivals.InsertSorted | api/bus.py:50 | inserting into a sorted list keeps it sorted |
| Arrivals.SortByTimeSortsAndPermutes | api/bus.py:50 | `sorted(arrivals, key=time_to_station_)`: the result is non-decreasing by time to the station and a permutation of the input |
| Arrivals.WithTimeInsert | api/bus.py:50 | an inserted arrival goes in front of the arrivals already due at its time and changes no other time |
| Arrivals.SortByTimeStable | api/bus.py:50 | for every time t, the arrivals due in t seconds appear in their input order |
| Arrivals.SortedStableUnique | api/bus.py:50 | two sorted lists with the same arrivals for every time are equal, so a stable sort has only one possible result |
| Arrivals.ArrivalsOf | api/bus.py:41-50 | the result exists iff assembly succeeds, and is then sorted and a permutation of the assembled list |
| Arrivals.ArrivalsOfSpec | api/bus.py:41-50 | one arrival per raw record; every raw record's fields, including zero and negative times, appear unchanged in the result; equal times keep input order; the result is the only stably sorted arrangement |
| Arrivals.DueNowKeepsOrder | api/bus.py:41-50 | arrivals due in 300, 0 and 0 seconds come out as the two due now, in input order, and then the later one |
| Query.FindBusStop | api/bus.py:108-112 | a response without `stopPoints` raises `KeyError('stopPoints')`; otherwise the search succeeds iff every record normalises, and then gives one stop per record, in upstream order |
| Query.FindBusStopFailure | api/bus.py:110 | a failing search reports the error of the first record that does not normalise |
| Query.FindBusStopAppend | api/bus.py:110 | the stops of two concatenated lists are the stops of each list, concatenated |

## Left out

- HTTP requests with `httpx.AsyncClient` and the async plumbing in `arrivals`, `resolve_reference` and `find_bus_stop` (api/bus.py:34-39, 83-88, 98-108). This is network I/O. The model starts from the decoded JSON.
- The `stopTypes` query parameter (api/bus.py:104). The upstream service applies it, not this code.
- `resolve_reference` (api/bus.py:82-90). After the fetch it only calls `from_api`, which `Stops.FromApi` models.
- The `time_to_station` display field (api/bus.py:18-20). It uses the `humanize` library, and that library's wording is not part of this model.
- Strawberry decorators, federation keys and schema construction (api/bus.py:12,23; api/schema.py). These are framework wiring.
- main.py: FastAPI app, CORS, Sentry set-up and router mounting. This is process configuration.
- JSON values of an unexpected type, such as a `lines` field that is `null` or a number where a string is expected. Python would raise `TypeError` or carry the value on. The model types every field, so a `null` field is treated like an absent one.
- Lookup.FirstMatch: a property `{"key": "Towards", "value": null}` gives `towards = None` in Python, while the model raises `KeyError('value')`, because a `null` value is modelled as a missing one.
- Lookup.FirstMatch: a property `{"key": null}` is skipped in Python (`None == "Towards"` is false), while the model raises `KeyError('key')`, because a `null` key is modelled as a missing one.
- Python's `sorted` is Timsort. The model uses a stable insertion sort. `Arrivals.SortedStableUnique` shows that every stable sort by the same key gives the same list, so the choice of algorithm does not affect the result.

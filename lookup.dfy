/** The `next((p["value"] for p in props if p["key"] == key), None)` idiom of
    `BusStop.from_api` (api/bus.py:54-70). The generator is consumed lazily:
    `p["key"]` is read for each entry up to the first match, `p["value"]` only
    for that match, and nothing after it is looked at. */
module Lookup {
  import opened Wrappers
  import opened Upstream

  /** Every entry before index `i` has a key, and that key is not `key`. */
  predicate NoMatchBefore(props: seq<RawProperty>, key: string, i: nat)
    requires i <= |props|
  {
    forall j | 0 <= j < i :: props[j].key.Some? && props[j].key.value != key
  }

  /** Entry `i` is the first one whose key equals `key` exactly. */
  predicate IsFirstMatch(props: seq<RawProperty>, key: string, i: nat) {
    i < |props| && NoMatchBefore(props, key, i) && props[i].key == Some(key)
  }

  /** Entry `i` is the first one without a key, and no entry before it matches. */
  predicate IsFirstKeyless(props: seq<RawProperty>, key: string, i: nat) {
    i < |props| && NoMatchBefore(props, key, i) && props[i].key.None?
  }

  /** The value of the first entry whose key is `key`, `None` when no entry
      matches, or the `KeyError` raised on the way. */
  function FirstMatch(props: seq<RawProperty>, key: string): (r: Result<Option<string>, KeyError>)
    ensures r == Success(None) <==> NoMatchBefore(props, key, |props|)
    ensures r.Success? && r.value.Some? ==>
      exists p | p in props :: p.key == Some(key) && p.value == r.value
    ensures r.Failure? ==> r.error in {KeyError("key"), KeyError("value")}
    ensures (forall j | 0 <= j < |props| :: props[j].key.Some? && props[j].value.Some?) ==> r.Success?
  {
    if props == [] then Success(None)
    else
      match props[0].key
      case None => Failure(KeyError("key"))
      case Some(k) =>
        if k == key then
          match props[0].value
          case None => Failure(KeyError("value"))
          case Some(v) => Success(Some(v))
        else FirstMatch(props[1..], key)
  }

  /** Dropping the first entry, when it has a key other than `key`, changes
      neither the lookup nor which entries come first. */
  lemma NoMatchBeforeShift(props: seq<RawProperty>, key: string, i: nat)
    requires 0 < |props| && props[0].key.Some? && props[0].key.value != key
    requires i < |props|
    ensures NoMatchBefore(props, key, i + 1) <==> NoMatchBefore(props[1..], key, i)
  {
  }

  /** The first matching entry decides the lookup: its value, or a
      `KeyError("value")` when it has none. Later duplicates are ignored. */
  lemma {:induction false} FirstMatchFound(props: seq<RawProperty>, key: string, i: nat)
    requires IsFirstMatch(props, key, i)
    ensures FirstMatch(props, key) ==
      if props[i].value.Some? then Success(props[i].value) else Failure(KeyError("value"))
  {
    if i > 0 {
      NoMatchBeforeShift(props, key, i - 1);
      FirstMatchFound(props[1..], key, i - 1);
    }
  }

  /** An entry without a key, reached before any match, raises `KeyError("key")`. */
  lemma {:induction false} FirstMatchKeyless(props: seq<RawProperty>, key: string, i: nat)
    requires IsFirstKeyless(props, key, i)
    ensures FirstMatch(props, key) == Failure(KeyError("key"))
  {
    if i > 0 {
      NoMatchBeforeShift(props, key, i - 1);
      FirstMatchKeyless(props[1..], key, i - 1);
    }
  }

  /** `next` stops at the first match or the first exception: entries appended
      after that point are never read. */
  lemma {:induction false} FirstMatchStopsEarly(props: seq<RawProperty>, rest: seq<RawProperty>, key: string)
    requires FirstMatch(props, key) != Success(None)
    ensures FirstMatch(props + rest, key) == FirstMatch(props, key)
  {
    assert (props + rest)[0] == props[0];
    match props[0].key
    case None =>
    case Some(k) =>
      if k != key {
        assert (props + rest)[1..] == props[1..] + rest;
        FirstMatchStopsEarly(props[1..], rest, key);
      }
  }

  /** `props` without the entries whose key is exactly `other`. */
  function Without(props: seq<RawProperty>, other: string): (r: seq<RawProperty>)
    ensures forall p | p in r :: p in props && p.key != Some(other)
    ensures forall p | p in props && p.key != Some(other) :: p in r
  {
    if props == [] then []
    else (if props[0].key == Some(other) then [] else [props[0]]) + Without(props[1..], other)
  }

  /** Looking up one key does not depend on the entries of another key: the
      `"Direction"` lookup gives the same outcome with every `"Towards"` entry
      removed, and the other way round. */
  lemma {:induction false} FirstMatchIgnoresOtherKeys(props: seq<RawProperty>, key: string, other: string)
    requires key != other
    ensures FirstMatch(Without(props, other), key) == FirstMatch(props, key)
  {
    if props != [] {
      var w := Without(props, other);
      FirstMatchIgnoresOtherKeys(props[1..], key, other);
      if props[0].key == Some(other) {
        assert w == Without(props[1..], other);
      } else {
        assert w == [props[0]] + Without(props[1..], other);
        assert w[0] == props[0] && w[1..] == Without(props[1..], other);
        match props[0].key
        case None =>
        case Some(k) =>
          if k != key {
            assert FirstMatch(w, key) == FirstMatch(w[1..], key);
          }
      }
    }
  }
}

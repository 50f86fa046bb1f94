/** Arrival assembly in `BusStop.arrivals` (api/bus.py:41-50): each raw record
    becomes an `Arrival`, and the list goes through Python's stable `sorted`
    keyed on the time to the station. */
module Arrivals {
  import opened Wrappers
  import opened Upstream

  /** A predicted arrival (api/bus.py:13-16); `timeToStation` is in seconds
      and may be zero or negative. */
  datatype Arrival = Arrival(id: string, lineName: string, timeToStation: int)

  /** `Arrival(id=a["id"], line_name=a["lineName"], time_to_station_=a["timeToStation"])`. */
  function ToArrival(raw: RawArrival): (r: Result<Arrival, KeyError>)
    ensures r.Success? <==> raw.id.Some? && raw.lineName.Some? && raw.timeToStation.Some?
    ensures r.Success? ==>
      && raw.id == Some(r.value.id)
      && raw.lineName == Some(r.value.lineName)
      && raw.timeToStation == Some(r.value.timeToStation)
    ensures r.Failure? ==>
      r.error == (if raw.id.None? then KeyError("id")
                  else if raw.lineName.None? then KeyError("lineName")
                  else KeyError("timeToStation"))
  {
    var id :- Subscript(raw.id, "id");
    var lineName :- Subscript(raw.lineName, "lineName");
    var timeToStation :- Subscript(raw.timeToStation, "timeToStation");
    Success(Arrival(id, lineName, timeToStation))
  }

  /** The list comprehension of api/bus.py:41-48. */
  function Assemble(raws: seq<RawArrival>): (r: Result<seq<Arrival>, KeyError>)
    ensures r.Success? <==> forall i | 0 <= i < |raws| :: ToArrival(raws[i]).Success?
    ensures r.Success? ==>
      |r.value| == |raws| && forall i | 0 <= i < |raws| :: ToArrival(raws[i]) == Success(r.value[i])
  {
    MapAll(ToArrival, raws)
  }

  /** Non-decreasing by time to the station. */
  predicate SortedByTime(s: seq<Arrival>) {
    forall i, j | 0 <= i < j < |s| :: s[i].timeToStation <= s[j].timeToStation
  }

  /** The arrivals of `s` due in exactly `t` seconds, in their order in `s`. */
  function WithTime(s: seq<Arrival>, t: int): seq<Arrival> {
    if s == [] then []
    else (if s[0].timeToStation == t then [s[0]] else []) + WithTime(s[1..], t)
  }

  /** `WithTime` one step at a time. */
  lemma WithTimeTail(s: seq<Arrival>, t: int)
    requires s != []
    ensures WithTime(s, t) ==
      (if s[0].timeToStation == t then [s[0]] else []) + WithTime(s[1..], t)
  {
  }

  /** Inserts `a` before the first element not due earlier than it. */
  function Insert(a: Arrival, s: seq<Arrival>): (r: seq<Arrival>)
    ensures |r| == |s| + 1 && (r[0] == a || (s != [] && r[0] == s[0]))
  {
    if s == [] || a.timeToStation <= s[0].timeToStation then [a] + s
    else [s[0]] + Insert(a, s[1..])
  }

  /** Insertion adds `a` and loses nothing. */
  lemma {:induction false} InsertPermutes(a: Arrival, s: seq<Arrival>)
    ensures multiset(Insert(a, s)) == multiset{a} + multiset(s)
  {
    if s != [] && a.timeToStation > s[0].timeToStation {
      InsertPermutes(a, s[1..]);
      assert s == [s[0]] + s[1..];
    }
  }

  /** Inserting into a sorted sequence keeps it sorted. */
  lemma {:induction false} InsertSorted(a: Arrival, s: seq<Arrival>)
    requires SortedByTime(s)
    ensures SortedByTime(Insert(a, s))
  {
    if s != [] && a.timeToStation > s[0].timeToStation {
      var rest := Insert(a, s[1..]);
      InsertSorted(a, s[1..]);
      assert s[0].timeToStation <= rest[0].timeToStation;
      assert Insert(a, s) == [s[0]] + rest;
    }
  }

  /** Python's `sorted(s, key=lambda a: a.time_to_station_)`: a stable sort,
      here as an insertion sort that keeps equal keys in input order. */
  function SortByTime(s: seq<Arrival>): seq<Arrival>
  {
    if s == [] then [] else Insert(s[0], SortByTime(s[1..]))
  }

  /** The sort's contract: the result is non-decreasing by time to the
      station and holds exactly the input arrivals. */
  lemma {:induction false} SortByTimeSortsAndPermutes(s: seq<Arrival>)
    ensures SortedByTime(SortByTime(s))
    ensures multiset(SortByTime(s)) == multiset(s)
  {
    if s != [] {
      SortByTimeSortsAndPermutes(s[1..]);
      InsertSorted(s[0], SortByTime(s[1..]));
      InsertPermutes(s[0], SortByTime(s[1..]));
      assert s == [s[0]] + s[1..];
    }
  }

  /** Inserting `a` adds it to the arrivals due at its own time, in front of
      those already there, and changes no other time. */
  lemma {:induction false} WithTimeInsert(a: Arrival, s: seq<Arrival>, t: int)
    ensures WithTime(Insert(a, s), t) ==
      (if a.timeToStation == t then [a] else []) + WithTime(s, t)
  {
    var x := if a.timeToStation == t then [a] else [];
    if s == [] || a.timeToStation <= s[0].timeToStation {
      WithTimeTail([a] + s, t);
      assert ([a] + s)[1..] == s;
    } else {
      var rest := Insert(a, s[1..]);
      var r := [s[0]] + rest;
      assert Insert(a, s) == r;
      assert r[0] == s[0] && r[1..] == rest;
      var y := if s[0].timeToStation == t then [s[0]] else [];
      WithTimeInsert(a, s[1..], t);
      assert WithTime(rest, t) == x + WithTime(s[1..], t);
      WithTimeTail(r, t);
      assert WithTime(r, t) == y + (x + WithTime(s[1..], t));
      WithTimeTail(s, t);
      assert WithTime(s, t) == y + WithTime(s[1..], t);
      assert y == [] || x == [];
      assert y + (x + WithTime(s[1..], t)) == x + (y + WithTime(s[1..], t));
    }
  }

  /** Stability: for every time `t`, the arrivals due in `t` seconds come out
      in the order they came in. */
  lemma {:induction false} SortByTimeStable(s: seq<Arrival>, t: int)
    ensures WithTime(SortByTime(s), t) == WithTime(s, t)
  {
    if s != [] {
      WithTimeInsert(s[0], SortByTime(s[1..]), t);
      SortByTimeStable(s[1..], t);
      WithTimeTail(s, t);
    }
  }

  lemma {:induction false} WithTimeNonEmpty(s: seq<Arrival>, t: int) returns (i: nat)
    requires WithTime(s, t) != []
    ensures i < |s| && s[i].timeToStation == t
  {
    WithTimeTail(s, t);
    if s[0].timeToStation == t {
      i := 0;
    } else {
      var k := WithTimeNonEmpty(s[1..], t);
      i := k + 1;
    }
  }

  /** The first elements of two sorted sequences with the same arrivals at
      both head times are due at the same time. */
  lemma SortedSameHeadTime(r: seq<Arrival>, q: seq<Arrival>)
    requires SortedByTime(r) && SortedByTime(q) && r != [] && q != []
    requires WithTime(r, r[0].timeToStation) == WithTime(q, r[0].timeToStation)
    requires WithTime(r, q[0].timeToStation) == WithTime(q, q[0].timeToStation)
    ensures r[0].timeToStation == q[0].timeToStation
  {
    var a, b := r[0].timeToStation, q[0].timeToStation;
    WithTimeTail(r, a);
    var i := WithTimeNonEmpty(q, a);
    assert b <= q[i].timeToStation;
    WithTimeTail(q, b);
    var j := WithTimeNonEmpty(r, b);
    assert a <= r[j].timeToStation;
  }

  /** A sorted sequence is determined by its per-time subsequences: any
      arrangement that is sorted and keeps equal times in input order is the
      one `SortByTime` returns. */
  lemma {:induction false} SortedStableUnique(r: seq<Arrival>, q: seq<Arrival>)
    requires SortedByTime(r) && SortedByTime(q)
    requires forall t :: WithTime(r, t) == WithTime(q, t)
    ensures r == q
  {
    assert r != [] ==> q != [] by {
      if r != [] { WithTimeTail(r, r[0].timeToStation); }
    }
    assert q != [] ==> r != [] by {
      if q != [] { WithTimeTail(q, q[0].timeToStation); }
    }
    if r == [] || q == [] {
    } else {
      var a, b := r[0].timeToStation, q[0].timeToStation;
      assert WithTime(r, a) == WithTime(q, a) && WithTime(r, b) == WithTime(q, b);
      SortedSameHeadTime(r, q);
      WithTimeTail(r, a);
      WithTimeTail(q, a);
      assert r[0] == WithTime(r, a)[0] == WithTime(q, a)[0] == q[0];
      forall t ensures WithTime(r[1..], t) == WithTime(q[1..], t) {
        WithTimeTail(r, t);
        WithTimeTail(q, t);
        var x := if a == t then [r[0]] else [];
        assert WithTime(r, t) == x + WithTime(r[1..], t);
        assert WithTime(q, t) == x + WithTime(q[1..], t);
        assert WithTime(r, t) == WithTime(q, t);
        assert (x + WithTime(r[1..], t))[|x|..] == WithTime(r[1..], t);
        assert (x + WithTime(q[1..], t))[|x|..] == WithTime(q[1..], t);
      }
      SortedStableUnique(r[1..], q[1..]);
      assert r == [r[0]] + r[1..] && q == [q[0]] + q[1..];
    }
  }

  /** `BusStop.arrivals` after the fetch: assemble, then sort by time. */
  function ArrivalsOf(raws: seq<RawArrival>): (r: Result<seq<Arrival>, KeyError>)
    ensures r.Success? <==> Assemble(raws).Success?
    ensures r.Success? ==>
      && SortedByTime(r.value)
      && multiset(r.value) == multiset(Assemble(raws).value)
  {
    var arrivals :- Assemble(raws);
    SortByTimeSortsAndPermutes(arrivals);
    Success(SortByTime(arrivals))
  }

  /** The result is exactly the stable sort of the assembled list: one arrival
      per raw record with its fields copied verbatim (no time clamped or
      dropped), non-decreasing by time, equal times in upstream order. */
  lemma ArrivalsOfSpec(raws: seq<RawArrival>, q: seq<Arrival>)
    requires ArrivalsOf(raws).Success?
    ensures var r := ArrivalsOf(raws).value;
      && |r| == |raws|
      && (forall i | 0 <= i < |raws| ::
            Arrival(raws[i].id.value, raws[i].lineName.value, raws[i].timeToStation.value) in r)
      && (forall t :: WithTime(r, t) == WithTime(Assemble(raws).value, t))
      && (SortedByTime(q) && (forall t :: WithTime(q, t) == WithTime(Assemble(raws).value, t)) ==> q == r)
  {
    var a := Assemble(raws).value;
    var r := ArrivalsOf(raws).value;
    assert |r| == |multiset(r)| == |multiset(a)| == |a|;
    forall i | 0 <= i < |raws|
      ensures Arrival(raws[i].id.value, raws[i].lineName.value, raws[i].timeToStation.value) in r
    {
      assert a[i] in multiset(a);
    }
    forall t ensures WithTime(r, t) == WithTime(a, t) {
      SortByTimeStable(a, t);
    }
    if SortedByTime(q) && (forall t :: WithTime(q, t) == WithTime(a, t)) {
      SortedStableUnique(r, q);
    }
  }

  /** Two arrivals due at the same time, listed after a later one, move to
      the front and keep their order. */
  lemma SortThreeExample(a: Arrival, b: Arrival, c: Arrival)
    requires b.timeToStation == c.timeToStation < a.timeToStation
    ensures SortByTime([a, b, c]) == [b, c, a]
  {
    assert [a, b, c][1..] == [b, c] && [b, c][1..] == [c] && [c][1..] == [];
    assert SortByTime([c]) == Insert(c, SortByTime([])) == [c];
    assert SortByTime([b, c]) == Insert(b, [c]) == [b, c];
    assert Insert(a, [c]) == [c] + Insert(a, []) == [c, a];
    assert Insert(a, [b, c]) == [b] + Insert(a, [c]);
  }

  /** Arrivals due in 300, 0 and 0 seconds come out as the two due now, in
      their upstream order, then the later one. */
  lemma DueNowKeepsOrder()
    ensures ArrivalsOf([RawArrival(Some("a"), Some("24"), Some(300)),
                        RawArrival(Some("b"), Some("N5"), Some(0)),
                        RawArrival(Some("c"), Some("88"), Some(0))])
         == Success([Arrival("b", "N5", 0), Arrival("c", "88", 0), Arrival("a", "24", 300)])
  {
    var a, b, c := Arrival("a", "24", 300), Arrival("b", "N5", 0), Arrival("c", "88", 0);
    var raws := [RawArrival(Some("a"), Some("24"), Some(300)),
                 RawArrival(Some("b"), Some("N5"), Some(0)),
                 RawArrival(Some("c"), Some("88"), Some(0))];
    assert ToArrival(raws[0]) == Success(a);
    assert ToArrival(raws[1]) == Success(b);
    assert ToArrival(raws[2]) == Success(c);
    var assembled := Assemble(raws);
    assert assembled.Success?;
    assert assembled.value[0] == a && assembled.value[1] == b && assembled.value[2] == c;
    assert assembled.value == [a, b, c];
    SortThreeExample(a, b, c);
  }
}

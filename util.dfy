/**
 * src/lib/util.js: the performance-timing log and the conversions between the two
 * shapes of a Source Map Revision 3 object that Babel and Terser expect.
 */
module Util {

  import opened Wrappers
  import opened Js

  // ---------------------------------------------------------------------------
  // createPerformanceTimings

  /** One entry of the timing log: `{ name, start }`, later stamped with `end` and `duration`. */
  datatype Timing = Timing(name: string, start: int, end: Option<int>, duration: Option<int>)

  /** The position of the first entry called `name`, if any. */
  function FirstNamed(ts: seq<Timing>, name: string): (r: Option<nat>)
    ensures r.Some? ==> r.value < |ts| && ts[r.value].name == name
    ensures r.Some? ==> forall k :: 0 <= k < r.value ==> ts[k].name != name
    ensures r.None? ==> forall k :: 0 <= k < |ts| ==> ts[k].name != name
  {
    if ts == [] then None
    else if ts[0].name == name then Some(0)
    else match FirstNamed(ts[1..], name)
      case None => None
      case Some(i) => Some(i + 1)
  }

  /** The log after `end(name)` at time `now`: the first entry called `name` gets `end` and
      `duration`; a log without such an entry is returned as it is. */
  function Stamped(ts: seq<Timing>, name: string, now: int): seq<Timing> {
    match FirstNamed(ts, name)
    case None => ts
    case Some(i) => ts[i := ts[i].(end := Some(now), duration := Some(now - ts[i].start))]
  }

  /** The object returned by `createPerformanceTimings()`: the `timings` array that its `start`
      and `end` closures share. The clock (`Date.now()`) is passed in as `now`. */
  class PerformanceTimings {
    var timings: seq<Timing>

    constructor ()
      ensures timings == []
    {
      timings := [];
    }

    /** `start(name)`: appends one unstamped entry. */
    method Start(name: string, now: int)
      modifies this
      ensures timings == old(timings) + [Timing(name, now, None, None)]
    {
      timings := timings + [Timing(name, now, None, None)];
    }

    /** The `for (const entry of timings)` search of `end`: the first entry called `name`. */
    method FindEntry(name: string) returns (found: Option<nat>)
      ensures found.Some? ==> found.value < |timings| && timings[found.value].name == name
      ensures found.Some? ==> forall k :: 0 <= k < found.value ==> timings[k].name != name
      ensures found.None? ==> forall k :: 0 <= k < |timings| ==> timings[k].name != name
    {
      var i := 0;
      while i < |timings|
        invariant 0 <= i <= |timings|
        invariant forall k :: 0 <= k < i ==> timings[k].name != name
      {
        if timings[i].name == name {
          return Some(i);
        }
        i := i + 1;
      }
      return None;
    }

    /** `end(name)`: stamps the first entry called `name` and stops. */
    method End(name: string, now: int)
      modifies this
      ensures timings == Stamped(old(timings), name, now)
    {
      var found := FindEntry(name);
      if found.Some? {
        var i := found.value;
        timings := timings[i := timings[i].(end := Some(now), duration := Some(now - timings[i].start))];
      }
    }
  }

  /** `end` changes only the first entry with a matching name: it gains `end = now` and
      `duration = now - start`, and every other entry, and the length, stay as they were. */
  lemma StampedOnlyFirst(ts: seq<Timing>, name: string, now: int, i: nat)
    requires i < |ts| && ts[i].name == name
    requires forall k :: 0 <= k < i ==> ts[k].name != name
    ensures |Stamped(ts, name, now)| == |ts|
    ensures Stamped(ts, name, now)[i] == Timing(name, ts[i].start, Some(now), Some(now - ts[i].start))
    ensures forall k :: 0 <= k < |ts| && k != i ==> Stamped(ts, name, now)[k] == ts[k]
  {
    assert FirstNamed(ts, name) == Some(i);
  }

  /** `end` of a name that was never started leaves the log unchanged. */
  lemma StampedNoMatch(ts: seq<Timing>, name: string, now: int)
    requires forall k :: 0 <= k < |ts| ==> ts[k].name != name
    ensures Stamped(ts, name, now) == ts
  {
  }

  /** After two `start(name)` calls, no sequence of `end(name)` calls ever gives the later
      entry a duration: `end` keeps stamping the earlier one. */
  lemma {:induction false} LaterStartNeverStamped(ts: seq<Timing>, name: string, nows: seq<int>, j: nat)
    requires j < |ts| && ts[j].name == name && ts[j].duration.None?
    requires exists k :: 0 <= k < j && ts[k].name == name
    ensures j < |EndAll(ts, name, nows)| && EndAll(ts, name, nows)[j] == ts[j]
    decreases |nows|
  {
    if nows != [] {
      var k :| 0 <= k < j && ts[k].name == name;
      var f := FirstNamed(ts, name);
      assert f.Some? && f.value <= k;
      var next := Stamped(ts, name, nows[0]);
      assert next[j] == ts[j];
      assert next[k].name == name;
      LaterStartNeverStamped(next, name, nows[1..], j);
    }
  }

  /** The log after `end(name)` has been called once for each time in `nows`. */
  function EndAll(ts: seq<Timing>, name: string, nows: seq<int>): (r: seq<Timing>)
    ensures |r| == |ts|
    decreases |nows|
  {
    if nows == [] then ts else EndAll(Stamped(ts, name, nows[0]), name, nows[1..])
  }

  // ---------------------------------------------------------------------------
  // toTerserMap / toBabelMap

  /** `toTerserMap(map)` for an already-parsed map: a non-null object is copied with `version`
      replaced by `String(version)`; anything else gives `null`. */
  function ToTerserMap(m: JsValue): (r: JsValue)
    requires !m.Str?
    ensures !m.Object? ==> r == Null
    ensures m.Object? ==> (r.Object?
      && Get(r.props, "version") == Str(ToString(Get(m.props, "version")))
      && (forall k :: k != "version" ==> Get(r.props, k) == Get(m.props, k))
      && (forall k :: HasKey(r.props, k) <==> HasKey(m.props, k) || k == "version"))
  {
    if m.Object? then
      Object(Put(Assign([], m.props), "version", Str(ToString(Get(m.props, "version")))))
    else Null
  }

  /** `toBabelMap(map)` for an already-parsed map: a non-null object is spread over
      `{ file: '' }` and `version` becomes `parseInt(version, 10)`; anything else gives `null`. */
  function ToBabelMap(m: JsValue): (r: JsValue)
    requires !m.Str?
    ensures !m.Object? ==> r == Null
    ensures m.Object? ==> (r.Object?
      && Get(r.props, "version") == ParseInt(ToString(Get(m.props, "version")))
      && Get(r.props, "file") == (if HasKey(m.props, "file") then Get(m.props, "file") else Str(""))
      && (forall k :: k != "version" && k != "file" ==> Get(r.props, k) == Get(m.props, k))
      && (forall k :: HasKey(r.props, k) <==> HasKey(m.props, k) || k == "version" || k == "file"))
  {
    if m.Object? then
      var withFile := Assign([Prop("file", Str(""))], m.props);
      assert Get([Prop("file", Str(""))], "file") == Str("");
      Object(Put(withFile, "version", ParseInt(ToString(Get(m.props, "version")))))
    else Null
  }

  /** A Terser-style map turned back into a Babel-style one keeps an integer `version` (one
      with `|n| < 10^21`, below JavaScript's exponent notation), and every other field; `file`
      is defaulted only when it was absent. */
  lemma BabelOfTerserKeepsVersion(m: JsValue, n: int)
    requires m.Object? && Get(m.props, "version") == Num(n)
    ensures ToBabelMap(ToTerserMap(m)).Object?
    ensures Get(ToBabelMap(ToTerserMap(m)).props, "version") == Num(n)
    ensures forall k :: k != "version" && k != "file" ==>
              Get(ToBabelMap(ToTerserMap(m)).props, k) == Get(m.props, k)
    ensures Get(ToBabelMap(ToTerserMap(m)).props, "file") ==
              (if HasKey(m.props, "file") then Get(m.props, "file") else Str(""))
  {
    var t := ToTerserMap(m);
    assert Get(t.props, "version") == Str(IntToString(n));
    ParseIntOfIntToString(n);
    assert HasKey(t.props, "file") <==> HasKey(m.props, "file");
  }

  /** Spreading a map with distinct keys copies its properties in their order; `version` keeps
      its position when present and is appended otherwise. */
  lemma TerserMapKeepsKeyOrder(m: JsValue)
    requires m.Object? && UniqueKeys(m.props)
    ensures Keys(ToTerserMap(m).props) ==
              Keys(m.props) + (if HasKey(m.props, "version") then [] else ["version"])
  {
    var v := Str(ToString(Get(m.props, "version")));
    SpreadIsCopy(m.props);
    PutKeys(m.props, "version", v);
  }

  lemma SpreadIsCopy(props: seq<Prop>)
    requires UniqueKeys(props)
    ensures Assign([], props) == props
  {
    AssignDisjoint([], props);
    assert [] + props == props;
  }

  lemma PutKeys(props: seq<Prop>, k: string, v: JsValue)
    ensures Keys(Put(props, k, v)) == Keys(props) + (if HasKey(props, k) then [] else [k])
  {
    if !HasKey(props, k) {
      GetSnoc(props, Prop(k, v));
    }
  }
}

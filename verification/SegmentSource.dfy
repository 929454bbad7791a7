/** The replay readers of `data_source.rs`. */
module SegmentSource {
  import opened Wrappers

  /* One file line by line, and a directory of segments one after the other with the counters folded
  together. */

  /** A line after trimming and parsing. */
  datatype Line<E> = Blank | Malformed | Event(event: E)

  // ---------- what a file holds ----------

  function Events<E>(lines: seq<Line<E>>): seq<E> {
    if lines == [] then []
    else (if lines[0].Event? then [lines[0].event] else []) + Events(lines[1..])
  }

  function BadLines<E>(lines: seq<Line<E>>): nat {
    if lines == [] then 0 else (if lines[0].Malformed? then 1 else 0) + BadLines(lines[1..])
  }

  function Spots<E>(isSpot: E -> bool, evs: seq<E>): nat {
    if evs == [] then 0 else (if isSpot(evs[0]) then 1 else 0) + Spots(isSpot, evs[1..])
  }

  function Later(prev: Option<int>, t: int): Option<int> {
    if prev.Some? && t < prev.value then prev else Some(t)
  }

  predicate Behind(prev: Option<int>, t: int) {
    prev.Some? && t < prev.value
  }

  /** Events that arrive behind the latest time seen before them. */
  function OutOfOrder<E>(time: E -> int, prev: Option<int>, evs: seq<E>): nat
    decreases |evs|
  {
    if evs == [] then 0
    else (if Behind(prev, time(evs[0])) then 1 else 0) + OutOfOrder(time, Later(prev, time(evs[0])), evs[1..])
  }

  lemma {:induction false} EventsConcat<E>(a: seq<Line<E>>, b: seq<Line<E>>)
    ensures Events(a + b) == Events(a) + Events(b)
    decreases |a|
  {
    hide Events, EventsOn;
    if a == [] {
      assert a + b == b;
      NoEvents<E>();
    } else {
      EventsConcat(a[1..], b);
      EventsStep(a + b);
      EventsStep(a);
      assert (a + b)[1..] == a[1..] + b;
      InFrontOfBoth(EventsOn(a[0]), Events(a[1..]), Events(b));
    }
  }

  lemma NoEvents<E>()
    ensures Events<E>([]) == []
  {
  }

  function EventsOn<E>(line: Line<E>): seq<E> {
    if line.Event? then [line.event] else []
  }

  lemma EventsStep<E>(lines: seq<Line<E>>)
    requires lines != []
    ensures Events(lines) == EventsOn(lines[0]) + Events(lines[1..])
  {
  }

  lemma InFrontOfBoth<E>(front: seq<E>, a: seq<E>, b: seq<E>)
    ensures front + (a + b) == (front + a) + b
  {
  }

  lemma {:induction false} BadLinesConcat<E>(a: seq<Line<E>>, b: seq<Line<E>>)
    ensures BadLines(a + b) == BadLines(a) + BadLines(b)
    decreases |a|
  {
    if a == [] {
      assert a + b == b;
    } else {
      assert (a + b)[1..] == a[1..] + b;
      BadLinesConcat(a[1..], b);
    }
  }

  /** One event more in front. */
  lemma InFront<E>(time: E -> int, isSpot: E -> bool, prev: Option<int>, e: E, rest: seq<E>)
    ensures OutOfOrder(time, prev, [e] + rest) == (if Behind(prev, time(e)) then 1 else 0) + OutOfOrder(time, Later(prev, time(e)), rest)
    ensures Spots(isSpot, [e] + rest) == (if isSpot(e) then 1 else 0) + Spots(isSpot, rest)
  {
    assert ([e] + rest)[1..] == rest;
  }

  lemma {:induction false} SpotsConcat<E>(isSpot: E -> bool, a: seq<E>, b: seq<E>)
    ensures Spots(isSpot, a + b) == Spots(isSpot, a) + Spots(isSpot, b)
    decreases |a|
  {
    if a == [] {
      assert a + b == b;
    } else {
      assert (a + b)[1..] == a[1..] + b;
      SpotsConcat(isSpot, a[1..], b);
    }
  }

  /** What a replay reports. */
  datatype Stats = Stats(events: nat, malformed: nat, outOfOrder: nat, spots: nat)

  /** The report one file with these lines deserves. */
  function StatsOf<E>(lines: seq<Line<E>>, time: E -> int, isSpot: E -> bool): Stats {
    Stats(|Events(lines)|, BadLines(lines), OutOfOrder(time, None, Events(lines)), Spots(isSpot, Events(lines)))
  }

  // ---------- the report by position ----------

  /** The event at position `j` is older than one that came before it. */
  ghost predicate Late<E>(time: E -> int, evs: seq<E>, j: nat)
    requires j < |evs|
  {
    exists i :: 0 <= i < j && time(evs[i]) > time(evs[j])
  }

  ghost function LateFrom<E>(time: E -> int, evs: seq<E>, k: nat): set<nat> {
    set j: nat | k <= j < |evs| && Late(time, evs, j)
  }

  /** `prev` is the latest time of the first `k` events. */
  ghost predicate LatestBefore<E>(time: E -> int, evs: seq<E>, k: nat, prev: Option<int>)
    requires k <= |evs|
  {
    && (forall i :: 0 <= i < k ==> prev.Some? && time(evs[i]) <= prev.value)
    && (prev.Some? ==> exists i :: 0 <= i < k && time(evs[i]) == prev.value)
  }

  lemma LatestNext<E>(time: E -> int, evs: seq<E>, k: nat, prev: Option<int>)
    requires k < |evs| && LatestBefore(time, evs, k, prev)
    ensures LatestBefore(time, evs, k + 1, Later(prev, time(evs[k]))) && (Behind(prev, time(evs[k])) <==> Late(time, evs, k))
  {
    if prev.Some? {
      var i :| 0 <= i < k && time(evs[i]) == prev.value;
    }
    assert time(evs[k]) == time(evs[k]);
  }

  lemma LateFromNext<E>(time: E -> int, evs: seq<E>, k: nat)
    requires k < |evs|
    ensures |LateFrom(time, evs, k)| == |LateFrom(time, evs, k + 1)| + if Late(time, evs, k) then 1 else 0
  {
    hide Late;
    var here: set<nat> := if Late(time, evs, k) then {k} else {};
    assert LateFrom(time, evs, k) == LateFrom(time, evs, k + 1) + here;
  }

  lemma {:induction false} OutOfOrderFrom<E>(time: E -> int, evs: seq<E>, k: nat, prev: Option<int>)
    requires k <= |evs| && LatestBefore(time, evs, k, prev)
    ensures OutOfOrder(time, prev, evs[k..]) == |LateFrom(time, evs, k)|
    decreases |evs| - k
  {
    hide LatestBefore, Late, Later, Behind;
    if k == |evs| {
      assert LateFrom(time, evs, k) == {};
    } else {
      LatestNext(time, evs, k, prev);
      LateFromNext(time, evs, k);
      OutOfOrderFrom(time, evs, k + 1, Later(prev, time(evs[k])));
      assert evs[k..][0] == evs[k] && evs[k..][1..] == evs[k + 1..];
    }
  }

  ghost function LatePlaces<E>(time: E -> int, evs: seq<E>): set<nat> {
    set j: nat | j < |evs| && Late(time, evs, j)
  }

  ghost function SpotPlaces<E>(isSpot: E -> bool, evs: seq<E>): set<nat> {
    set j: nat | j < |evs| && isSpot(evs[j])
  }

  ghost function BadPlaces<E>(lines: seq<Line<E>>): set<nat> {
    set j: nat | j < |lines| && lines[j].Malformed?
  }

  lemma SpotPlacesNext<E>(isSpot: E -> bool, evs: seq<E>, e: E)
    ensures |SpotPlaces(isSpot, evs + [e])| == |SpotPlaces(isSpot, evs)| + if isSpot(e) then 1 else 0
  {
    var here: set<nat> := if isSpot(e) then {|evs|} else {};
    assert SpotPlaces(isSpot, evs + [e]) == SpotPlaces(isSpot, evs) + here;
  }

  lemma {:induction false} SpotCount<E>(isSpot: E -> bool, evs: seq<E>)
    ensures Spots(isSpot, evs) == |SpotPlaces(isSpot, evs)|
  {
    if evs != [] {
      var init, last := evs[..|evs| - 1], evs[|evs| - 1];
      SpotCount(isSpot, init);
      SpotPlacesNext(isSpot, init, last);
      SpotsConcat(isSpot, init, [last]);
      assert init + [last] == evs && Spots(isSpot, [last]) == if isSpot(last) then 1 else 0;
    }
  }

  lemma BadPlacesNext<E>(lines: seq<Line<E>>, line: Line<E>)
    ensures |BadPlaces(lines + [line])| == |BadPlaces(lines)| + if line.Malformed? then 1 else 0
  {
    var here: set<nat> := if line.Malformed? then {|lines|} else {};
    assert BadPlaces(lines + [line]) == BadPlaces(lines) + here;
  }

  lemma {:induction false} BadCount<E>(lines: seq<Line<E>>)
    ensures BadLines(lines) == |BadPlaces(lines)|
  {
    if lines != [] {
      var init, last := lines[..|lines| - 1], lines[|lines| - 1];
      BadCount(init);
      BadPlacesNext(init, last);
      BadLinesConcat(init, [last]);
      assert init + [last] == lines && BadLines([last]) == if last.Malformed? then 1 else 0;
    }
  }

  /** The events counted out of order are the ones older than some event before them. */
  lemma LateCount<E>(time: E -> int, evs: seq<E>)
    ensures OutOfOrder(time, None, evs) == |LatePlaces(time, evs)|
  {
    hide Late;
    OutOfOrderFrom(time, evs, 0, None);
    assert evs[0..] == evs && LateFrom(time, evs, 0) == LatePlaces(time, evs);
  }

  /** `out` are the events on the lines at these places, which are all the lines with one, in order. */
  ghost predicate EventsAt<E>(lines: seq<Line<E>>, out: seq<E>, places: seq<nat>) {
    && |places| == |out| && (forall i, j :: 0 <= i < j < |places| ==> places[i] < places[j])
    && (forall i :: 0 <= i < |places| ==> places[i] < |lines| && lines[places[i]] == Event(out[i]))
    && forall j: nat :: j < |lines| && lines[j].Event? ==> j in places
  }

  lemma {:induction false} EventPlaces<E>(lines: seq<Line<E>>) returns (places: seq<nat>)
    ensures EventsAt(lines, Events(lines), places)
  {
    places := [];
    if lines != [] {
      var n := |lines| - 1;
      places := EventPlaces(lines[..n]);
      assert lines == lines[..n] + [lines[n]];
      EventsConcat(lines[..n], [lines[n]]);
      if lines[n].Event? {
        var more := places + [n];
        assert forall j :: j in more <==> j in places || j == n;
        places := more;
      } else {
        assert Events(lines) == Events(lines[..n]) + [];
      }
    }
  }

  /** What was read off the lines and reported about them, by position: the events in the order of their
  lines, and how many lines are malformed, events are late, and events are spots. */
  ghost predicate Reported<E>(lines: seq<Line<E>>, time: E -> int, isSpot: E -> bool, out: seq<E>, stats: Stats) {
    && (exists places :: EventsAt(lines, out, places))
    && stats == Stats(|out|, |BadPlaces(lines)|, |LatePlaces(time, out)|, |SpotPlaces(isSpot, out)|)
  }

  lemma StatsByPosition<E>(lines: seq<Line<E>>, time: E -> int, isSpot: E -> bool)
    ensures Reported(lines, time, isSpot, Events(lines), StatsOf(lines, time, isSpot))
  {
    hide LatePlaces, SpotPlaces, BadPlaces, EventsAt;
    var places := EventPlaces(lines);
    BadCount(lines);
    SpotCount(isSpot, Events(lines));
    LateCount(time, Events(lines));
  }

  // ---------- one file ----------

  class Replay<E> {
    const lines: seq<Line<E>>
    const time: E -> int
    const isSpot: E -> bool
    var pos: nat
    var events: nat
    var skipped: nat
    var spots: nat
    var outOfOrder: nat
    var lastAt: Option<int>

    ghost predicate Valid()
      reads this
    {
      pos <= |lines|
    }

    ghost function Rest(): seq<Line<E>>
      reads this
    {
      if pos <= |lines| then lines[pos..] else []
    }

    /** The events still to come. */
    ghost function Ahead(): seq<E>
      reads this
    {
      Events(Rest())
    }

    function Now(): Stats
      reads this
    {
      Stats(events, skipped, outOfOrder, spots)
    }

    /** The report this reader will end with. */
    ghost function Final(): Stats
      reads this
    {
      Stats(events + |Ahead()|, skipped + BadLines(Rest()), outOfOrder + OutOfOrder(time, lastAt, Ahead()), spots + Spots(isSpot, Ahead()))
    }

    constructor (lines: seq<Line<E>>, time: E -> int, isSpot: E -> bool)
      ensures this.lines == lines && this.time == time && this.isSpot == isSpot
      ensures Valid() && Ahead() == Events(lines) && Final() == StatsOf(lines, time, isSpot)
    {
      this.lines, this.time, this.isSpot := lines, time, isSpot;
      pos, events, skipped, spots, outOfOrder, lastAt := 0, 0, 0, 0, 0, None;
      new;
      assert Rest() == lines;
    }

    /** Past one line: nothing of what the reader will report changes. */
    method ReadLine() returns (r: Option<E>)
      requires Valid() && pos < |lines|
      modifies this
      ensures Valid() && pos == old(pos) + 1 && Final() == old(Final())
      ensures old(Ahead()) == (if r.Some? then [r.value] else []) + Ahead()
    {
      hide OutOfOrder, Spots;
      var line := lines[pos];
      ghost var rest := Rest();
      assert rest[0] == line && rest[1..] == lines[pos + 1..];
      pos := pos + 1;
      assert Rest() == rest[1..];
      ghost var none: seq<E> := [];
      assert none + Events(rest[1..]) == Events(rest[1..]);
      match line {
        case Blank => return None;
        case Malformed =>
          skipped := skipped + 1;
          return None;
        case Event(ev) =>
          InFront(time, isSpot, lastAt, ev, Ahead());
          if isSpot(ev) {
            spots := spots + 1;
          }
          if Behind(lastAt, time(ev)) {
            outOfOrder := outOfOrder + 1;
          }
          lastAt := Later(lastAt, time(ev));
          events := events + 1;
          return Some(ev);
      }
    }

    /** The next event of the file, past blank and malformed lines. */
    method NextEvent() returns (r: Option<E>)
      requires Valid()
      modifies this
      ensures Valid() && Final() == old(Final())
      ensures r.Some? ==> old(Ahead()) == [r.value] + Ahead()
      ensures r.None? ==> old(Ahead()) == Ahead() == [] && Now() == Final()
    {
      while pos < |lines|
        invariant Valid() && Final() == old(Final()) && Ahead() == old(Ahead())
        decreases |lines| - pos
      {
        r := ReadLine();
        if r.Some? {
          return;
        }
      }
      return None;
    }
  }

  // ---------- a directory of segments ----------

  ghost predicate AllValid<E>(sources: seq<Replay<E>>, isSpot: E -> bool)
    reads sources
  {
    && (forall i, j :: 0 <= i < j < |sources| ==> sources[i] != sources[j])
    && (forall i :: 0 <= i < |sources| ==> sources[i].Valid())
  }

  ghost function Pending<E>(sources: seq<Replay<E>>): seq<E>
    reads sources
  {
    if sources == [] then [] else sources[0].Ahead() + Pending(sources[1..])
  }

  ghost function PendingMalformed<E>(sources: seq<Replay<E>>): nat
    reads sources
  {
    if sources == [] then 0 else sources[0].Final().malformed + PendingMalformed(sources[1..])
  }

  ghost function PendingSpots<E>(sources: seq<Replay<E>>): nat
    reads sources
  {
    if sources == [] then 0 else sources[0].Final().spots + PendingSpots(sources[1..])
  }

  lemma FirstAndRest<E>(sources: seq<Replay<E>>)
    requires sources != []
    ensures Pending(sources) == sources[0].Ahead() + Pending(sources[1..])
    ensures PendingMalformed(sources) == sources[0].Final().malformed + PendingMalformed(sources[1..])
    ensures PendingSpots(sources) == sources[0].Final().spots + PendingSpots(sources[1..])
  {
    hide Replay.Ahead, Replay.Final;
  }

  class Segments<E> {
    const sources: seq<Replay<E>>
    const time: E -> int
    const isSpot: E -> bool
    var current: nat
    var events: nat
    var skipped: nat
    var spots: nat
    var outOfOrder: nat
    var lastAt: Option<int>

    ghost predicate Valid()
      reads this, sources
    {
      current <= |sources| && AllValid(sources[current..], isSpot)
    }

    ghost function Left(): seq<Replay<E>>
      reads this
    {
      if current <= |sources| then sources[current..] else []
    }

    ghost function Ahead(): seq<E>
      reads this, sources
    {
      Pending(Left())
    }

    function Now(): Stats
      reads this
    {
      Stats(events, skipped, outOfOrder, spots)
    }

    /** The report this reader will end with. */
    ghost function Final(): Stats
      reads this, sources
    {
      Stats(events + |Ahead()|, skipped + PendingMalformed(Left()), outOfOrder + OutOfOrder(time, lastAt, Ahead()), spots + PendingSpots(Left()))
    }

    constructor (sources: seq<Replay<E>>, time: E -> int, isSpot: E -> bool)
      requires AllValid(sources, isSpot)
      ensures this.sources == sources && this.time == time && this.isSpot == isSpot && Left() == sources
      ensures Valid() && Now() == Stats(0, 0, 0, 0) && lastAt == None
    {
      this.sources, this.time, this.isSpot := sources, time, isSpot;
      current, events, skipped, spots, outOfOrder, lastAt := 0, 0, 0, 0, 0, None;
    }

    /** One more event counted: the report over it and what is ahead is the report from here. */
    method Count(ev: E)
      requires Valid()
      modifies this`outOfOrder, this`lastAt, this`events
      ensures Valid() && Ahead() == old(Ahead())
      ensures Final() == Stats(old(events) + 1 + |Ahead()|, skipped + PendingMalformed(Left()),
                               old(outOfOrder) + OutOfOrder(time, old(lastAt), [ev] + Ahead()), spots + PendingSpots(Left()))
    {
      hide Replay.Ahead, Replay.Final, OutOfOrder, Spots, Pending, PendingMalformed, PendingSpots;
      InFront(time, isSpot, lastAt, ev, Ahead());
      if Behind(lastAt, time(ev)) {
        outOfOrder := outOfOrder + 1;
      }
      lastAt := Later(lastAt, time(ev));
      events := events + 1;
    }

    /** An exhausted segment left behind, its counters folded in. */
    method Leave()
      requires Valid() && current < |sources| && sources[current].Ahead() == [] && sources[current].Now() == sources[current].Final()
      modifies this`skipped, this`spots, this`current
      ensures Valid() && Final() == old(Final()) && Ahead() == old(Ahead()) && current == old(current) + 1
    {
      hide Replay.Ahead, Replay.Final, OutOfOrder, Spots, Pending, PendingMalformed, PendingSpots;
      var src := sources[current];
      ghost var left, rest := Left(), sources[current + 1..];
      assert left[0] == src && left[1..] == rest;
      FirstAndRest(left);
      skipped := skipped + src.skipped;
      spots := spots + src.spots;
      current := current + 1;
      assert Left() == rest && [] + Pending(rest) == Pending(rest);
    }

    /** Reading from the current segment: an event, or a segment finished and folded in. */
    method ReadCurrent() returns (r: Option<E>)
      requires Valid() && current < |sources|
      modifies this, sources
      ensures Valid() && Final() == old(Final())
      ensures current == old(current) + if r.Some? then 0 else 1
      ensures old(Ahead()) == (if r.Some? then [r.value] else []) + Ahead()
    {
      hide Replay.Ahead, Replay.Final, OutOfOrder, Spots, Pending, PendingMalformed, PendingSpots;
      var src := sources[current];
      ghost var left, rest := Left(), sources[current + 1..];
      assert left[0] == src && left[1..] == rest && src !in rest;
      FirstAndRest(left);
      ghost var pending, bad, spotted, ahead := Pending(rest), PendingMalformed(rest), PendingSpots(rest), src.Ahead();
      r := src.NextEvent();
      assert Pending(rest) == pending && PendingMalformed(rest) == bad && PendingSpots(rest) == spotted;
      FirstAndRest(left);
      if r.Some? {
        assert ahead + pending == [r.value] + (src.Ahead() + pending);
        Count(r.value);
      } else {
        assert ahead + pending == [] + pending;
        Leave();
      }
    }

    method NextEvent() returns (r: Option<E>)
      requires Valid()
      modifies this, sources
      ensures Valid() && Final() == old(Final())
      ensures r.Some? ==> old(Ahead()) == [r.value] + Ahead()
      ensures r.None? ==> old(Ahead()) == Ahead() == [] && Now() == Final()
    {
      while current < |sources|
        invariant Valid() && Final() == old(Final()) && Ahead() == old(Ahead())
        decreases |sources| - current
      {
        r := ReadCurrent();
        if r.Some? {
          return;
        }
      }
      return None;
    }
  }

  // ---------- whole replays ----------

  /** One unrotated file, read to its end. */
  method ReplayFile<E>(lines: seq<Line<E>>, time: E -> int, isSpot: E -> bool) returns (out: seq<E>, stats: Stats)
    ensures out == Events(lines) && stats == StatsOf(lines, time, isSpot) && Reported(lines, time, isSpot, out, stats)
  {
    hide Replay.Ahead, Replay.Final, Reported;
    StatsByPosition(lines, time, isSpot);
    var src := new Replay<E>(lines, time, isSpot);
    out := [];
    var next := src.NextEvent();
    while next.Some?
      invariant src.Valid() && src.Final() == StatsOf(lines, time, isSpot)
      invariant Events(lines) == out + (if next.Some? then [next.value] else []) + src.Ahead()
      invariant next.None? ==> src.Ahead() == [] && src.Now() == src.Final()
      decreases |src.Ahead()|, next.Some?
    {
      out := out + [next.value];
      next := src.NextEvent();
    }
    stats := src.Now();
  }

  function Joined<E>(files: seq<seq<Line<E>>>): seq<Line<E>> {
    if files == [] then [] else files[0] + Joined(files[1..])
  }

  ghost predicate Opened<E>(sources: seq<Replay<E>>, files: seq<seq<Line<E>>>, time: E -> int, isSpot: E -> bool)
    reads sources
  {
    |sources| == |files| && forall i :: 0 <= i < |files| ==> OpenedAs(sources[i], files[i], time, isSpot)
  }

  ghost predicate OpenedAs<E>(src: Replay<E>, lines: seq<Line<E>>, time: E -> int, isSpot: E -> bool)
    reads src
  {
    src.Valid() && src.Ahead() == Events(lines) && src.Final() == StatsOf(lines, time, isSpot)
  }

  lemma {:induction false} OpenedTotals<E>(sources: seq<Replay<E>>, files: seq<seq<Line<E>>>, time: E -> int, isSpot: E -> bool)
    requires Opened(sources, files, time, isSpot)
    ensures Pending(sources) == Events(Joined(files)) && PendingMalformed(sources) == BadLines(Joined(files))
    ensures PendingSpots(sources) == Spots(isSpot, Events(Joined(files)))
    decreases |files|
  {
    hide Replay.Ahead, Replay.Final;
    if files != [] {
      assert OpenedAs(sources[0], files[0], time, isSpot);
      OpenedTotals(sources[1..], files[1..], time, isSpot);
      EventsConcat(files[0], Joined(files[1..]));
      BadLinesConcat(files[0], Joined(files[1..]));
      SpotsConcat(isSpot, Events(files[0]), Events(Joined(files[1..])));
    }
  }

  method OpenAll<E>(files: seq<seq<Line<E>>>, time: E -> int, isSpot: E -> bool) returns (sources: seq<Replay<E>>)
    ensures Opened(sources, files, time, isSpot) && AllValid(sources, isSpot)
    ensures forall j :: 0 <= j < |sources| ==> fresh(sources[j])
  {
    hide Replay.Ahead, Replay.Final, Events, BadLines;
    sources := [];
    for i := 0 to |files|
      invariant Opened(sources, files[..i], time, isSpot) && AllValid(sources, isSpot)
      invariant forall j :: 0 <= j < i ==> fresh(sources[j])
    {
      var src := new Replay<E>(files[i], time, isSpot);
      assert forall j :: 0 <= j < i ==> OpenedAs(sources[j], files[..i][j], time, isSpot);
      sources := sources + [src];
    }
    assert files[..|files|] == files;
  }

  method Drain<E>(all: Segments<E>) returns (out: seq<E>, stats: Stats)
    requires all.Valid()
    modifies all, all.sources
    ensures out == old(all.Ahead()) && stats == old(all.Final())
  {
    hide Segments.Ahead, Segments.Final, Segments.Valid;
    out := [];
    var next := all.NextEvent();
    while next.Some?
      invariant all.Valid() && all.Final() == old(all.Final())
      invariant old(all.Ahead()) == out + (if next.Some? then [next.value] else []) + all.Ahead()
      invariant next.None? ==> all.Ahead() == [] && all.Now() == all.Final()
      decreases |all.Ahead()|, next.Some?
    {
      out := out + [next.value];
      next := all.NextEvent();
    }
    stats := all.Now();
  }

  /** A rotated archive, segment by segment: the same events and the same report as its lines in
  one file, which is the report of their positions. */
  method ReplaySegments<E>(files: seq<seq<Line<E>>>, time: E -> int, isSpot: E -> bool) returns (out: seq<E>, stats: Stats)
    ensures out == Events(Joined(files)) && stats == StatsOf(Joined(files), time, isSpot)
    ensures Reported(Joined(files), time, isSpot, out, stats)
  {
    hide Events, BadLines, Joined, OutOfOrder, Spots, Reported, Opened, AllValid, Pending, PendingMalformed, PendingSpots, Segments.Valid;
    StatsByPosition(Joined(files), time, isSpot);
    var sources := OpenAll(files, time, isSpot);
    var all := new Segments<E>(sources, time, isSpot);
    OpenedTotals(sources, files, time, isSpot);
    out, stats := Drain(all);
  }
}

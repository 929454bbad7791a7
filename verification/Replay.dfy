/** The replay driver of `backtest.rs`. */
module Replay {
  import opened Wrappers

  /* The live loop fires a maintenance tick on every point of a grid anchored at the first event.  The
  replay jumps from one due point to the next instead, as the deadline probe of `service.rs` tells
  it, and credits the points it skipped.  The simple form is `Walk`, which fires every grid point,
  and the fast one is `Jump`; the results below say when the two cannot be told apart. */

  const DAY_MS: int := 86_400_000
  const I64_MAX: int := 0x7fff_ffff_ffff_ffff

  /** A market family the corpus declares: venue and round duration in seconds. */
  type Family = (string, int)

  datatype Timed<E> = Timed(at: int, event: E)

  /** The trading core as the driver sees it: one maintenance tick (`tick` followed by
  `engine_evaluate` and `drain`), one delivery, the instants its gates are armed for, and
  the two flags that pin the next landing. */
  datatype Kernel<!D(!new), !E(!new)> = Kernel(
    tick: (D, int) -> D,
    deliver: (D, E, int) -> D,
    deadlines: D -> seq<int>,
    forced: D -> bool,
    standing: D -> bool,
    families: E -> seq<Family>,
    replaySched: bool,
    shadowEnabled: bool,
    roundSec: int)

  predicate JumpAllowed<D(!new), E(!new)>(k: Kernel<D, E>) {
    k.replaySched && !k.shadowEnabled
  }

  predicate Pinned<D(!new), E(!new)>(k: Kernel<D, E>, d: D) {
    k.forced(d) || k.standing(d)
  }

  /** A gate's deadline, or the UTC day boundary. */
  predicate Armed<D(!new), E(!new)>(k: Kernel<D, E>, d: D, t: int) {
    t in k.deadlines(d) || t % DAY_MS == 0
  }

  /** Some gate armed since instant `s` has come due by `now`. */
  ghost predicate Due<D(!new), E(!new)>(k: Kernel<D, E>, d: D, s: int, now: int) {
    exists t :: s < t <= now && Armed(k, d, t)
  }

  /** The quiet-tick contract: a core that has had its tick at `s`, with nothing pinned, is left
  as it was, reports included, by a later tick until a gate comes due. */
  ghost predicate QuietTicks<D(!new), E(!new)>(k: Kernel<D, E>) {
    forall d: D, s: int, now: int ::
      s < now && !Pinned(k, k.tick(d, s)) && !Due(k, k.tick(d, s), s, now) ==> k.tick(k.tick(d, s), now) == k.tick(d, s)
  }

  /** The stronger contract that takes the probe at its word: with nothing pinned, a tick before
  the wake probed from any cursor leaves the core as it was. */
  ghost predicate QuietBeforeWake<D(!new), E(!new)>(k: Kernel<D, E>) {
    forall d: D, cursor: int, now: int ::
      !Pinned(k, d) && cursor <= now && BeforeWake(k.deadlines(d), cursor, now) ==> k.tick(d, now) == d
  }

  // ---------- the grid ----------

  /** How many grid points `cursor, cursor + tick, ...` lie strictly before `until`. */
  function GridPoints(cursor: int, until: int, tick: int): nat
    requires tick >= 1
    decreases until - cursor
  {
    if cursor >= until then 0 else 1 + GridPoints(cursor + tick, until, tick)
  }

  /** The first grid point at or after `until`, or the cursor when it is already there. */
  function GridEnd(cursor: int, until: int, tick: int): (e: int)
    requires tick >= 1
    ensures e >= until && e >= cursor && (cursor < until ==> e < until + tick)
    decreases until - cursor
  {
    if cursor >= until then cursor else GridEnd(cursor + tick, until, tick)
  }

  lemma DivisionBounds(a: int, b: int)
    requires a >= 0 && b >= 1
    ensures a / b >= 0
    ensures (a / b) * b <= a < (a / b) * b + b
  {
  }

  lemma Monotone(x: int, y: int, b: int)
    requires x <= y && b >= 0
    ensures x * b <= y * b
  {
  }

  lemma StrictMultiples(x: int, y: int, b: int)
    requires b >= 1
    ensures x < y ==> x * b + b <= y * b
  {
    if x < y {
      Monotone(x + 1, y, b);
      Distribute(x, b);
    }
  }

  lemma Distribute(x: int, b: int)
    ensures (x + 1) * b == x * b + b
  {
  }

  lemma QuotientIs(a: int, b: int, q: nat)
    requires a >= 0 && b >= 1 && q * b <= a < q * b + b
    ensures a / b == q
  {
    DivisionBounds(a, b);
    StrictMultiples(a / b, q, b);
    StrictMultiples(q, a / b, b);
  }

  lemma QuotientStep(a: int, b: int)
    requires a >= 0 && b >= 1
    ensures (a + b) / b == a / b + 1 && a / b >= 0
    ensures (a / b + 1) * b == (a / b) * b + b
  {
    DivisionBounds(a, b);
    Distribute(a / b, b);
    QuotientIs(a + b, b, a / b + 1);
  }

  /** The closed form the driver computes with: a distance rounded up to whole ticks. */
  lemma {:induction false} GridClosedForm(cursor: int, until: int, tick: int)
    requires tick >= 1
    ensures var d := until - cursor;
            var n := if d <= 0 then 0 else (d - 1) / tick + 1;
            GridPoints(cursor, until, tick) == n && GridEnd(cursor, until, tick) == cursor + n * tick
    decreases until - cursor
  {
    var d := until - cursor;
    if 0 < d <= tick {
      QuotientIs(d - 1, tick, 0);
    } else if d > tick {
      GridClosedForm(cursor + tick, until, tick);
      QuotientStep(d - tick - 1, tick);
      Distribute((d - tick - 1) / tick + 1, tick);
    }
  }

  /** The points before an earlier bound come first. */
  lemma {:induction false} GridSplit(cursor: int, mid: int, until: int, tick: int)
    requires tick >= 1 && mid <= until
    ensures var e := GridEnd(cursor, mid, tick);
            && GridEnd(cursor, until, tick) == GridEnd(e, until, tick)
            && GridPoints(cursor, until, tick) == GridPoints(cursor, mid, tick) + GridPoints(e, until, tick)
    decreases mid - cursor
  {
    if cursor < mid {
      GridSplit(cursor + tick, mid, until, tick);
    }
  }

  lemma TicksBetween(cursor: int, mid: int, tick: int)
    requires tick >= 1
    ensures (GridEnd(cursor, mid, tick) - cursor) / tick == GridPoints(cursor, mid, tick)
  {
    GridClosedForm(cursor, mid, tick);
    QuotientIs(GridPoints(cursor, mid, tick) * tick, tick, GridPoints(cursor, mid, tick));
  }

  // ---------- the walk that fires every grid point ----------

  function Walk<D(!new), E(!new)>(k: Kernel<D, E>, d: D, cursor: int, until: int, tick: int): (D, int)
    requires tick >= 1
    decreases until - cursor
  {
    if cursor >= until then (d, cursor)
    else Walk(k, k.tick(d, cursor), cursor + tick, until, tick)
  }

  lemma {:induction false} WalkEndsOnTheGrid<D(!new), E(!new)>(k: Kernel<D, E>, d: D, cursor: int, until: int, tick: int)
    requires tick >= 1
    ensures Walk(k, d, cursor, until, tick).1 == GridEnd(cursor, until, tick)
    decreases until - cursor
  {
    if cursor < until {
      WalkEndsOnTheGrid(k, k.tick(d, cursor), cursor + tick, until, tick);
    }
  }

  /** Walking a span in two pieces is walking it in one. */
  lemma {:induction false} WalkCompose<D(!new), E(!new)>(k: Kernel<D, E>, d: D, cursor: int, mid: int, until: int, tick: int)
    requires tick >= 1 && mid <= until
    ensures var (d1, c1) := Walk(k, d, cursor, mid, tick);
            Walk(k, d, cursor, until, tick) == Walk(k, d1, c1, until, tick)
    decreases mid - cursor
  {
    if cursor < mid {
      WalkCompose(k, k.tick(d, cursor), cursor + tick, mid, until, tick);
    }
  }

  /** Quiet grid points leave no trace in the walk: `d` is the core after its tick at `s`. */
  lemma {:induction false} WalkSkipsQuietPoints<D(!new), E(!new)>(
      k: Kernel<D, E>, before: D, s: int, cursor: int, mid: int, until: int, tick: int)
    requires tick >= 1 && mid <= until && s < cursor && QuietTicks(k) && !Pinned(k, k.tick(before, s))
    requires forall t :: cursor <= t < mid ==> !Due(k, k.tick(before, s), s, t)
    ensures var d := k.tick(before, s);
            Walk(k, d, cursor, until, tick) == Walk(k, d, GridEnd(cursor, mid, tick), until, tick)
    decreases mid - cursor
  {
    if cursor < mid {
      assert !Due(k, k.tick(before, s), s, cursor);
      WalkSkipsQuietPoints(k, before, s, cursor + tick, mid, until, tick);
    }
  }

  lemma RemainderStep(a: int, b: int)
    requires a >= b >= 1
    ensures (a - b) % b == a % b
  {
    QuotientStep(a - b, b);
  }

  lemma {:induction false} OnTheGrid(cursor: int, t: int, tick: int)
    requires tick >= 1 && cursor <= t
    ensures GridEnd(cursor, t, tick) == t <==> (t - cursor) % tick == 0
    decreases t - cursor
  {
    if cursor + tick <= t {
      OnTheGrid(cursor + tick, t, tick);
      RemainderStep(t - cursor, tick);
    }
  }

  /** The bound `t + 1` takes in the instant `t` itself: it is stepped exactly when it is a grid point. */
  lemma InstantIsStepped<D(!new), E(!new)>(k: Kernel<D, E>, d: D, cursor: int, t: int, tick: int)
    requires tick >= 1 && cursor <= t
    ensures var (before, c) := Walk(k, d, cursor, t, tick);
            && Walk(k, d, cursor, t + 1, tick) == (if (t - cursor) % tick == 0 then (k.tick(before, t), t + tick) else (before, c))
            && GridPoints(cursor, t + 1, tick) == GridPoints(cursor, t, tick) + (if (t - cursor) % tick == 0 then 1 else 0)
  {
    WalkCompose(k, d, cursor, t, t + 1, tick);
    WalkEndsOnTheGrid(k, d, cursor, t, tick);
    GridSplit(cursor, t, t + 1, tick);
    OnTheGrid(cursor, t, tick);
  }

  // ---------- the wake probe ----------

  function DayBoundaryAfter(probe: int): (t: int)
    ensures t > probe && t % DAY_MS == 0
    ensures forall u :: probe < u < t ==> u % DAY_MS != 0
  {
    var t := (probe / DAY_MS + 1) * DAY_MS;
    assert forall u :: probe < u < t ==> u / DAY_MS == probe / DAY_MS;
    t
  }

  /** `w` answers the probe: the earliest armed instant after `probe`, or nothing. */
  ghost predicate IsWake(deadlines: seq<int>, probe: int, w: Option<int>) {
    match w
    case Some(t) =>
      && probe < t < I64_MAX
      && (t in deadlines || t == DayBoundaryAfter(probe))
      && (forall i :: 0 <= i < |deadlines| && deadlines[i] > probe ==> t <= deadlines[i])
      && t <= DayBoundaryAfter(probe)
    case None =>
      && (forall i :: 0 <= i < |deadlines| && deadlines[i] > probe ==> I64_MAX <= deadlines[i])
      && I64_MAX <= DayBoundaryAfter(probe)
  }

  /** Instant `t` comes before the wake probed from `cursor`, if there is one. */
  predicate BeforeWake(deadlines: seq<int>, cursor: int, t: int) {
    var w := WakeAfter(deadlines, cursor - 1);
    w.None? || t < w.value
  }

  lemma OneWake(deadlines: seq<int>, probe: int, w: Option<int>, v: Option<int>)
    requires IsWake(deadlines, probe, w) && IsWake(deadlines, probe, v)
    ensures w == v
  {
  }

  function Earliest(deadlines: seq<int>, probe: int, best: int): (t: int)
    ensures t <= best && (t == best || (t > probe && t in deadlines))
    ensures forall i :: 0 <= i < |deadlines| && deadlines[i] > probe ==> t <= deadlines[i]
  {
    if deadlines == [] then best
    else
      var first := deadlines[0];
      Earliest(deadlines[1..], probe, if probe < first < best then first else best)
  }

  function WakeAfter(deadlines: seq<int>, probe: int): (w: Option<int>)
    ensures IsWake(deadlines, probe, w)
  {
    var t := Earliest(deadlines, probe, DayBoundaryAfter(probe));
    if t < I64_MAX then Some(t) else None
  }

  method NextReplayWake(deadlines: seq<int>, probe: int) returns (w: Option<int>)
    ensures IsWake(deadlines, probe, w)
  {
    var best := I64_MAX;
    for i := 0 to |deadlines|
      invariant best <= I64_MAX
      invariant best == I64_MAX || (best > probe && best in deadlines)
      invariant forall j :: 0 <= j < i && deadlines[j] > probe ==> best <= deadlines[j]
    {
      var t := deadlines[i];
      if t > probe && t < best && t != I64_MAX {
        best := t;
      }
    }
    var day := DayBoundaryAfter(probe);
    if day > probe && day < best && day != I64_MAX {
      best := day;
    }
    w := if best == I64_MAX then None else Some(best);
  }

  /** Nothing is armed from the cursor up to the wake the probe just before it returns. */
  lemma NothingBeforeWake<D(!new), E(!new)>(k: Kernel<D, E>, d: D, cursor: int, t: int)
    requires var w := WakeAfter(k.deadlines(d), cursor - 1);
             cursor <= t < I64_MAX && (w.Some? ==> t < w.value)
    ensures !Armed(k, d, t)
  {
    assert t < DayBoundaryAfter(cursor - 1);
    var ds := k.deadlines(d);
    assert forall i :: 0 <= i < |ds| ==> ds[i] != t;
  }

  // ---------- the jump ----------

  /** Where the driver lands when nothing pins it: the first grid point at or after the wake, or
  the end of the span. */
  function Landing<D(!new), E(!new)>(k: Kernel<D, E>, d: D, cursor: int, until: int, tick: int): (landing: int)
    requires tick >= 1 && cursor < until
    ensures cursor <= landing && (landing < until ==> landing + tick > cursor)
  {
    var w := WakeAfter(k.deadlines(d), cursor - 1);
    if w.Some? && GridEnd(cursor, w.value, tick) < until then GridEnd(cursor, w.value, tick) else GridEnd(cursor, until, tick)
  }

  /** The span as the driver crosses it; `pinned` lands it on the cursor itself. */
  function Jump<D(!new), E(!new)>(k: Kernel<D, E>, d: D, cursor: int, until: int, tick: int, pinned: bool): (D, int)
    requires tick >= 1
    decreases until - cursor
  {
    if cursor >= until then (d, cursor)
    else
      var landing := if pinned then cursor else Landing(k, d, cursor, until, tick);
      if landing >= until then (d, landing)
      else
        var d' := k.tick(d, landing);
        Jump(k, d', landing + tick, until, tick, Pinned(k, d'))
  }

  /** The probe asks for gates from the cursor on.  What it cannot see is a gate armed strictly
  between the last tick and the cursor, unless another one is armed at the cursor. */
  ghost predicate Seen<D(!new), E(!new)>(k: Kernel<D, E>, d: D, cursor: int, tick: int) {
    Armed(k, d, cursor) || forall t :: cursor - tick < t < cursor ==> !Armed(k, d, t)
  }

  /** No gate is armed where the probe does not look, at any crossing of this span. */
  ghost predicate Watchful<D(!new), E(!new)>(k: Kernel<D, E>, d: D, cursor: int, until: int, tick: int, pinned: bool)
    requires tick >= 1
    decreases until - cursor
  {
    cursor < until ==>
      var landing := if pinned then cursor else Landing(k, d, cursor, until, tick);
      && (pinned || Seen(k, d, cursor, tick))
      && (landing < until ==>
            var d' := k.tick(d, landing);
            Watchful(k, d', landing + tick, until, tick, Pinned(k, d')))
  }

  /** One landing of the jump. */
  lemma JumpStep<D(!new), E(!new)>(k: Kernel<D, E>, d: D, cursor: int, until: int, tick: int, pinned: bool)
    requires tick >= 1
    ensures Jump(k, d, cursor, until, tick, pinned) ==
            if cursor >= until then (d, cursor)
            else
              var landing := if pinned then cursor else Landing(k, d, cursor, until, tick);
              if landing >= until then (d, landing)
              else Jump(k, k.tick(d, landing), landing + tick, until, tick, Pinned(k, k.tick(d, landing)))
  {
  }

  lemma LandingOnGrid<D(!new), E(!new)>(k: Kernel<D, E>, d: D, cursor: int, until: int, tick: int)
    requires tick >= 1 && cursor < until
    ensures var landing := Landing(k, d, cursor, until, tick);
            && GridEnd(landing, until, tick) == GridEnd(cursor, until, tick)
            && GridPoints(cursor, until, tick) == (landing - cursor) / tick + GridPoints(landing, until, tick)
            && (landing >= until ==> landing == GridEnd(cursor, until, tick) && (landing - cursor) / tick == GridPoints(cursor, until, tick))
  {
    var w := WakeAfter(k.deadlines(d), cursor - 1);
    var mid := if w.Some? && GridEnd(cursor, w.value, tick) < until then w.value else until;
    GridSplit(cursor, mid, until, tick);
    TicksBetween(cursor, mid, tick);
  }

  lemma {:induction false} JumpEndsOnTheGrid<D(!new), E(!new)>(k: Kernel<D, E>, d: D, cursor: int, until: int, tick: int, pinned: bool)
    requires tick >= 1
    ensures Jump(k, d, cursor, until, tick, pinned).1 == GridEnd(cursor, until, tick)
    decreases until - cursor
  {
    hide Landing, Pinned, GridPoints;
    if cursor < until {
      LandingOnGrid(k, d, cursor, until, tick);
      var landing := if pinned then cursor else Landing(k, d, cursor, until, tick);
      if landing < until {
        var d' := k.tick(d, landing);
        JumpEndsOnTheGrid(k, d', landing + tick, until, tick, Pinned(k, d'));
      }
    }
  }

  /** Every point up to the landing is quiet. */
  lemma HopIsQuiet<D(!new), E(!new)>(k: Kernel<D, E>, before: D, cursor: int, until: int, tick: int)
    requires tick >= 1 && cursor < until <= I64_MAX && QuietTicks(k)
    requires !Pinned(k, k.tick(before, cursor - tick)) && Seen(k, k.tick(before, cursor - tick), cursor, tick)
    ensures var d := k.tick(before, cursor - tick);
            Walk(k, d, cursor, until, tick) == Walk(k, d, Landing(k, d, cursor, until, tick), until, tick)
  {
    var d, s := k.tick(before, cursor - tick), cursor - tick;
    var w := WakeAfter(k.deadlines(d), cursor - 1);
    var mid := if w.Some? && w.value < until then w.value else until;
    forall t | cursor <= t < mid ensures !Due(k, d, s, t) {
      forall u | s < u <= t ensures !Armed(k, d, u) {
        NothingBeforeWake(k, d, cursor, t);
        if u >= cursor {
          NothingBeforeWake(k, d, cursor, u);
        } else {
          NothingBeforeWake(k, d, cursor, cursor);
        }
      }
    }
    WalkSkipsQuietPoints(k, before, s, cursor, mid, until, tick);
    GridSplit(cursor, mid, until, tick);
    assert GridEnd(GridEnd(cursor, until, tick), until, tick) == GridEnd(cursor, until, tick);
  }

  /** The same under the stronger contract, gates between two points or not. */
  lemma {:induction false} WalkSkipsBeforeWake<D(!new), E(!new)>(
      k: Kernel<D, E>, d: D, from: int, cursor: int, mid: int, until: int, tick: int)
    requires tick >= 1 && from <= cursor && mid <= until && QuietBeforeWake(k) && !Pinned(k, d)
    requires forall t :: cursor <= t < mid ==> BeforeWake(k.deadlines(d), from, t)
    ensures Walk(k, d, cursor, until, tick) == Walk(k, d, GridEnd(cursor, mid, tick), until, tick)
    decreases mid - cursor
  {
    if cursor < mid {
      assert BeforeWake(k.deadlines(d), from, cursor);
      WalkSkipsBeforeWake(k, d, from, cursor + tick, mid, until, tick);
    }
  }

  lemma HopIsBeforeWake<D(!new), E(!new)>(k: Kernel<D, E>, d: D, cursor: int, until: int, tick: int)
    requires tick >= 1 && cursor < until && QuietBeforeWake(k) && !Pinned(k, d)
    ensures Walk(k, d, cursor, until, tick) == Walk(k, d, Landing(k, d, cursor, until, tick), until, tick)
  {
    var w := WakeAfter(k.deadlines(d), cursor - 1);
    var mid := if w.Some? && w.value < until then w.value else until;
    WalkSkipsBeforeWake(k, d, cursor, cursor, mid, until, tick);
    GridSplit(cursor, mid, until, tick);
    assert GridEnd(GridEnd(cursor, until, tick), until, tick) == GridEnd(cursor, until, tick);
  }

  /** What a span needs to be jumped: the stronger contract, or the quiet-tick contract with no gate
  armed where the probe does not look. */
  ghost predicate Safe<D(!new), E(!new)>(k: Kernel<D, E>, d: D, cursor: int, until: int, tick: int, pinned: bool)
    requires tick >= 1
  {
    QuietBeforeWake(k) || (until <= I64_MAX && QuietTicks(k) && Watchful(k, d, cursor, until, tick, pinned))
  }

  /** The refinement: jumping over a span that is safe to jump is walking it, core and cursor. */
  lemma {:induction false} JumpIsWalk<D(!new), E(!new)>(
      k: Kernel<D, E>, before: D, d: D, cursor: int, until: int, tick: int, pinned: bool)
    requires tick >= 1 && Safe(k, d, cursor, until, tick, pinned)
    requires pinned || (d == k.tick(before, cursor - tick) && !Pinned(k, d))
    ensures Jump(k, d, cursor, until, tick, pinned) == Walk(k, d, cursor, until, tick)
    decreases until - cursor
  {
    hide QuietTicks, QuietBeforeWake, Pinned, Landing, Seen, GridEnd;
    if cursor < until {
      var landing := if pinned then cursor else Landing(k, d, cursor, until, tick);
      if !pinned {
        if QuietBeforeWake(k) {
          HopIsBeforeWake(k, d, cursor, until, tick);
        } else {
          HopIsQuiet(k, before, cursor, until, tick);
        }
      }
      if landing < until {
        var d' := k.tick(d, landing);
        JumpIsWalk(k, d, d', landing + tick, until, tick, Pinned(k, d'));
      }
    }
  }

  // ---------- exactly when ----------

  /** Under the contract alone, jumping is walking on every span. */
  ghost predicate Faithful<D(!new), E(!new)>(k: Kernel<D, E>, tick: int)
    requires tick >= 1
  {
    forall d, cursor, until :: until <= I64_MAX ==> Jump(k, d, cursor, until, tick, true) == Walk(k, d, cursor, until, tick)
  }

  /** On the one-millisecond grid there is nothing between two points, so nothing is missed. */
  lemma {:induction false} UnitTickIsWatchful<D(!new), E(!new)>(k: Kernel<D, E>, d: D, cursor: int, until: int, pinned: bool)
    ensures Watchful(k, d, cursor, until, 1, pinned)
    decreases until - cursor
  {
    if cursor < until {
      var landing := if pinned then cursor else Landing(k, d, cursor, until, 1);
      if landing < until {
        var d' := k.tick(d, landing);
        UnitTickIsWatchful(k, d', landing + 1, until, Pinned(k, d'));
      }
    }
  }

  lemma UnitTickIsFaithful<D(!new), E(!new)>(k: Kernel<D, E>)
    requires QuietTicks(k)
    ensures Faithful(k, 1)
  {
    forall d, cursor, until | until <= I64_MAX ensures Jump(k, d, cursor, until, 1, true) == Walk(k, d, cursor, until, 1) {
      UnitTickIsWatchful(k, d, cursor, until, true);
      JumpIsWalk(k, d, d, cursor, until, 1, true);
    }
  }

  /** One gate, armed by the first tick for `delay` later, and fired by the first tick that finds it due. */
  datatype Gate = Fresh | Waiting(due: int) | Fired

  function GateTick(g: Gate, now: int, delay: int): Gate {
    match g
    case Fresh => Waiting(now + delay)
    case Waiting(due) => if now >= due then Fired else g
    case Fired => Fired
  }

  function OneGate(delay: int): Kernel<Gate, ()> {
    Kernel((g: Gate, now: int) => GateTick(g, now, delay), (g: Gate, e: (), now: int) => g,
           (g: Gate) => if g.Waiting? then [g.due] else [], (g: Gate) => false, (g: Gate) => false,
           (e: ()) => [], true, false, 900)
  }

  lemma OneGateIsQuiet(delay: int)
    requires delay >= 1
    ensures QuietTicks(OneGate(delay)) && JumpAllowed(OneGate(delay))
  {
    var k := OneGate(delay);
    forall g: Gate, s: int, now: int | s < now && !Due(k, k.tick(g, s), s, now) ensures k.tick(k.tick(g, s), now) == k.tick(g, s) {
      var d := k.tick(g, s);
      if d.Waiting? {
        assert Armed(k, d, d.due);
      }
    }
  }

  /** Where the probe leads once the gate is armed `delay` after the tick at `cursor - tick`. */
  lemma GateLanding(delay: int, cursor: int, tick: int)
    requires delay >= 1 && tick >= 2 && cursor % DAY_MS != 0 && cursor + 1 <= I64_MAX
    ensures Landing(OneGate(delay), Waiting(cursor - tick + delay), cursor, cursor + 1, tick) == if delay == tick then cursor else cursor + tick
  {
    var d := Waiting(cursor - tick + delay);
    var w := WakeAfter([d.due], cursor - 1);
    assert d.due in [d.due];
    if delay == tick {
      assert w == Some(cursor);
      assert GridEnd(cursor, cursor, tick) == cursor;
    } else {
      assert w.Some? ==> w.value > cursor;
    }
  }

  /** The tick at `s` arms the gate; the walk fires it at the next point exactly when it is due by
  then, and the jump exactly when it is due at that very point. */
  lemma GateDueInsideTick(delay: int, s: int, tick: int)
    requires delay >= 1 && tick >= 2 && (s + tick) % DAY_MS != 0 && s + tick + 1 <= I64_MAX
    ensures var k := OneGate(delay);
            && Walk(k, Fresh, s, s + tick + 1, tick).0 == (if delay <= tick then Fired else Waiting(s + delay))
            && Jump(k, Fresh, s, s + tick + 1, tick, true).0 == (if delay == tick then Fired else Waiting(s + delay))
  {
    hide Landing, Jump;
    var k, until, cursor := OneGate(delay), s + tick + 1, s + tick;
    var d := Waiting(s + delay);
    assert Walk(k, Fresh, s, until, tick) == Walk(k, d, cursor, until, tick) == Walk(k, k.tick(d, cursor), cursor + tick, until, tick);
    GateLanding(delay, cursor, tick);
    JumpStep(k, Fresh, s, until, tick, true);
    JumpStep(k, d, cursor, until, tick, false);
    JumpStep(k, k.tick(d, cursor), cursor + tick, until, tick, false);
  }

  /** A gate that acts at its very instant and at no other. */
  function ExactTick(g: Gate, now: int): Gate {
    if g.Waiting? && now == g.due && now < I64_MAX then Fired else g
  }

  function ExactGate(): Kernel<Gate, ()> {
    Kernel((g: Gate, now: int) => ExactTick(g, now), (g: Gate, e: (), now: int) => if now > 0 then Waiting(now + 1000) else g,
           (g: Gate) => if g.Waiting? then [g.due] else [], (g: Gate) => false, (g: Gate) => false,
           (e: ()) => [], true, false, 900)
  }

  /** The stronger contract has a core with deliveries that arm a gate and ticks that fire it; so on
  every grid, jumping it is walking it. */
  lemma ExactGateIsQuietBeforeWake(tick: int)
    requires tick >= 1
    ensures QuietBeforeWake(ExactGate()) && Faithful(ExactGate(), tick)
    ensures exists d, now :: ExactGate().tick(d, now) != d
  {
    var k := ExactGate();
    forall d: Gate, cursor: int, now: int | cursor <= now && BeforeWake(k.deadlines(d), cursor, now) ensures k.tick(d, now) == d {
      if d.Waiting? && now == d.due && now < I64_MAX {
        assert [d.due][0] == now && now in k.deadlines(d);
        NothingBeforeWake(k, d, cursor, now);
      }
    }
    forall d, cursor, until | until <= I64_MAX ensures Jump(k, d, cursor, until, tick, true) == Walk(k, d, cursor, until, tick) {
      JumpIsWalk(k, d, d, cursor, until, tick, true);
    }
    assert k.tick(Waiting(7), 7) == Fired;
  }

  /** Exactly on the one-millisecond grid is the contract enough for every core: on a coarser one, a
  core that keeps it arms a gate inside a tick and is never woken for it.  The cores here are all
  those whose state is a gate; `UnitTickIsFaithful` has the sufficient half for any state. */
  lemma FaithfulIffUnitTick(tick: int)
    requires 1 <= tick && tick + 2 <= I64_MAX
    ensures (forall k: Kernel<Gate, ()> :: QuietTicks(k) ==> Faithful(k, tick)) <==> tick == 1
  {
    if tick == 1 {
      forall k: Kernel<Gate, ()> | QuietTicks(k) ensures Faithful(k, 1) {
        UnitTickIsFaithful(k);
      }
    } else {
      var s := if tick % DAY_MS == 0 then 1 else 0;
      OneGateIsQuiet(1);
      GateDueInsideTick(1, s, tick);
      assert !Faithful(OneGate(1), tick);
    }
  }

  // ---------- the whole run ----------

  /** Where a replay stands: the core, the event clock, the grid cursor and the cycles counted. */
  datatype Stand<D> = Stand(core: D, clock: int, cursor: int, cycles: nat)

  datatype Outcome<D> =
    | Finished(at: Stand<D>, delivered: nat, startAt: int)
    | Refused(at: Stand<D>, foreign: set<Family>)

  function ForeignFamilies(declared: seq<Family>, roundSec: int): set<Family> {
    set f | f in declared && f.1 > 0 && f.1 != roundSec
  }

  /** The instant of an event stamped `at`: an event without a stamp happens now. */
  function ClockAt(clock: int, at: int): int {
    if at > 0 then at else clock
  }

  function Span<D(!new), E(!new)>(k: Kernel<D, E>, d: D, cursor: int, until: int, tick: int, jump: bool): (D, int)
    requires tick >= 1
  {
    if jump then Jump(k, d, cursor, until, tick, true) else Walk(k, d, cursor, until, tick)
  }

  /** The grid up to and including instant `t`, when that lies ahead. */
  function Advanced<D(!new), E(!new)>(k: Kernel<D, E>, s: Stand<D>, t: int, tick: int, jump: bool): Stand<D>
    requires tick >= 1
  {
    if t <= s.clock then s
    else
      var (d', c') := Span(k, s.core, s.cursor, t + 1, tick, jump);
      Stand(d', t, c', s.cycles + GridPoints(s.cursor, t + 1, tick))
  }

  /** The replay of an event stream from event `i` on, walking the grid or jumping over it. */
  function Replayed<D(!new), E(!new)>(
      k: Kernel<D, E>, s: Stand<D>, events: seq<Timed<E>>, i: nat, startAt: int, tick: int, tail: nat, jump: bool): Outcome<D>
    requires tick >= 1 && i <= |events|
    decreases |events| - i
  {
    if i == |events| then Finished(Advanced(k, s, s.clock + tail, tick, jump), i, startAt)
    else
      var w := Advanced(k, s, ClockAt(s.clock, events[i].at), tick, jump);
      var foreign := ForeignFamilies(k.families(events[i].event), k.roundSec);
      if foreign != {} then Refused(w, foreign)
      else Replayed(k, Fed(k, w, events[i].event), events, i + 1, startAt, tick, tail, jump)
  }

  function Fed<D(!new), E(!new)>(k: Kernel<D, E>, s: Stand<D>, e: E): Stand<D> {
    s.(core := k.deliver(s.core, e, s.clock))
  }

  function StartAt<E>(events: seq<Timed<E>>): int {
    if events == [] then 0 else ClockAt(0, events[0].at)
  }

  function Boot<D, E>(d: D, events: seq<Timed<E>>, tick: int): Stand<D> {
    Stand(d, StartAt(events), StartAt(events) + tick, 0)
  }

  function ReplayRun<D(!new), E(!new)>(k: Kernel<D, E>, d: D, events: seq<Timed<E>>, tick: int, tail: nat, jump: bool): Outcome<D>
    requires tick >= 1
  {
    Replayed(k, Boot(d, events, tick), events, 0, StartAt(events), tick, tail, jump)
  }

  /** Everything about an outcome except the core: clock, cursor, cycles and the tallies. */
  function Cadence<D>(out: Outcome<D>): Outcome<()> {
    var at := Stand((), out.at.clock, out.at.cursor, out.at.cycles);
    match out
    case Finished(_, delivered, startAt) => Finished(at, delivered, startAt)
    case Refused(_, foreign) => Refused(at, foreign)
  }

  predicate SameCadence<D>(s: Stand<D>, s': Stand<D>) {
    s.clock == s'.clock && s.cursor == s'.cursor && s.cycles == s'.cycles
  }

  lemma AdvancedCadence<D(!new), E(!new)>(k: Kernel<D, E>, s: Stand<D>, s': Stand<D>, t: int, tick: int, jump: bool)
    requires tick >= 1 && SameCadence(s, s')
    ensures SameCadence(Advanced(k, s, t, tick, jump), Advanced(k, s', t, tick, false))
  {
    WalkEndsOnTheGrid(k, s.core, s.cursor, t + 1, tick);
    WalkEndsOnTheGrid(k, s'.core, s.cursor, t + 1, tick);
    JumpEndsOnTheGrid(k, s.core, s.cursor, t + 1, tick, true);
  }

  /** The cadence of a replay depends neither on what the core does nor on jumping: for every core,
  contract or not, clock, cursor, cycle count, deliveries and refusal are those of the walk. */
  lemma {:induction false} CadenceIgnoresCore<D(!new), E(!new)>(
      k: Kernel<D, E>, s: Stand<D>, s': Stand<D>, events: seq<Timed<E>>, i: nat, startAt: int, tick: int, tail: nat, jump: bool)
    requires tick >= 1 && i <= |events| && SameCadence(s, s')
    ensures Cadence(Replayed(k, s, events, i, startAt, tick, tail, jump)) ==
            Cadence(Replayed(k, s', events, i, startAt, tick, tail, false))
    decreases |events| - i
  {
    if i == |events| {
      AdvancedCadence(k, s, s', s.clock + tail, tick, jump);
    } else {
      var t := ClockAt(s.clock, events[i].at);
      var w, w' := Advanced(k, s, t, tick, jump), Advanced(k, s', t, tick, false);
      AdvancedCadence(k, s, s', t, tick, jump);
      CadenceIgnoresCore(k, Fed(k, w, events[i].event), Fed(k, w', events[i].event), events, i + 1, startAt, tick, tail, jump);
    }
  }

  ghost predicate WatchfulTo<D(!new), E(!new)>(k: Kernel<D, E>, s: Stand<D>, t: int, tick: int)
    requires tick >= 1
  {
    t > s.clock ==> t + 1 <= I64_MAX && Watchful(k, s.core, s.cursor, t + 1, tick, true)
  }

  /** Along the walked replay, no span arms a gate where the probe does not look. */
  ghost predicate WatchfulRun<D(!new), E(!new)>(k: Kernel<D, E>, s: Stand<D>, events: seq<Timed<E>>, i: nat, tick: int, tail: nat)
    requires tick >= 1 && i <= |events|
    decreases |events| - i
  {
    if i == |events| then WatchfulTo(k, s, s.clock + tail, tick)
    else
      var t := ClockAt(s.clock, events[i].at);
      && WatchfulTo(k, s, t, tick)
      && (ForeignFamilies(k.families(events[i].event), k.roundSec) == {} ==>
            WatchfulRun(k, Fed(k, Advanced(k, s, t, tick, false), events[i].event), events, i + 1, tick, tail))
  }

  /** What a whole replay needs to be jumped. */
  ghost predicate SafeRun<D(!new), E(!new)>(k: Kernel<D, E>, s: Stand<D>, events: seq<Timed<E>>, i: nat, tick: int, tail: nat)
    requires tick >= 1 && i <= |events|
  {
    QuietBeforeWake(k) || (QuietTicks(k) && WatchfulRun(k, s, events, i, tick, tail))
  }

  lemma AdvancedAlike<D(!new), E(!new)>(k: Kernel<D, E>, s: Stand<D>, t: int, tick: int)
    requires tick >= 1 && (QuietBeforeWake(k) || (QuietTicks(k) && WatchfulTo(k, s, t, tick)))
    ensures Advanced(k, s, t, tick, true) == Advanced(k, s, t, tick, false)
  {
    if t > s.clock {
      JumpIsWalk(k, s.core, s.core, s.cursor, t + 1, tick, true);
    }
  }

  /** The whole replay, tail included: jumping is firing every grid point. */
  lemma {:induction false} ReplayIsWalk<D(!new), E(!new)>(
      k: Kernel<D, E>, s: Stand<D>, events: seq<Timed<E>>, i: nat, startAt: int, tick: int, tail: nat)
    requires tick >= 1 && i <= |events| && SafeRun(k, s, events, i, tick, tail)
    ensures Replayed(k, s, events, i, startAt, tick, tail, true) == Replayed(k, s, events, i, startAt, tick, tail, false)
    decreases |events| - i
  {
    if i == |events| {
      AdvancedAlike(k, s, s.clock + tail, tick);
    } else {
      var t := ClockAt(s.clock, events[i].at);
      AdvancedAlike(k, s, t, tick);
      if ForeignFamilies(k.families(events[i].event), k.roundSec) == {} {
        ReplayIsWalk(k, Fed(k, Advanced(k, s, t, tick, false), events[i].event), events, i + 1, startAt, tick, tail);
      }
    }
  }

  /** On the one-millisecond grid every replay is watchful, whatever the core. */
  lemma {:induction false} UnitTickRun<D(!new), E(!new)>(k: Kernel<D, E>, s: Stand<D>, events: seq<Timed<E>>, i: nat, tail: nat)
    requires i <= |events| && s.clock + tail + 1 <= I64_MAX
    requires forall j :: i <= j < |events| ==> events[j].at + tail + 1 <= I64_MAX
    ensures WatchfulRun(k, s, events, i, 1, tail)
    decreases |events| - i
  {
    var t := if i == |events| then s.clock + tail else ClockAt(s.clock, events[i].at);
    UnitTickIsWatchful(k, s.core, s.cursor, t + 1, true);
    if i < |events| {
      UnitTickRun(k, Fed(k, Advanced(k, s, t, 1, false), events[i].event), events, i + 1, tail);
    }
  }

  // ---------- the log of a replay ----------

  /** One thing the driver had the core do, when, and the core it left. */
  datatype Act<D, E> = Tick(at: int, after: D) | Deliver(at: int, event: E, after: D)

  function CoreAfter<D, E>(d: D, log: seq<Act<D, E>>): D {
    if log == [] then d else log[|log| - 1].after
  }

  ghost predicate Follows<D(!new), E(!new)>(k: Kernel<D, E>, d: D, a: Act<D, E>) {
    match a
    case Tick(at, after) => after == k.tick(d, at)
    case Deliver(at, event, after) => after == k.deliver(d, event, at)
  }

  /** Every act of the log was done to the core the acts before it left. */
  ghost predicate Trace<D(!new), E(!new)>(k: Kernel<D, E>, d: D, log: seq<Act<D, E>>) {
    forall i :: 0 <= i < |log| ==> Follows(k, CoreAfter(d, log[..i]), log[i])
  }

  /** Time never goes back in the log, and a tick is later than everything before it. */
  ghost predicate InOrder<D(!new), E(!new)>(log: seq<Act<D, E>>) {
    forall i, j :: 0 <= i < j < |log| ==> log[i].at <= log[j].at && (log[j].Tick? ==> log[i].at < log[j].at)
  }

  function Deliveries<D, E>(log: seq<Act<D, E>>): seq<Timed<E>> {
    if log == [] then []
    else (if log[0].Deliver? then [Timed(log[0].at, log[0].event)] else []) + Deliveries(log[1..])
  }

  predicate Ticked<D(!new), E(!new)>(log: seq<Act<D, E>>, p: int) {
    exists i :: 0 <= i < |log| && log[i].Tick? && log[i].at == p
  }

  /** Instant `p` falls right after tick `i` of the log, which left nothing pinned and no wake up to `p`. */
  predicate QuietAfter<D(!new), E(!new)>(k: Kernel<D, E>, log: seq<Act<D, E>>, i: nat, p: int, tick: int)
    requires i < |log|
  {
    && log[i].Tick? && log[i].at < p && (i + 1 < |log| ==> p <= log[i + 1].at)
    && !k.forced(log[i].after) && !k.standing(log[i].after) && BeforeWake(k.deadlines(log[i].after), log[i].at + tick, p)
  }

  ghost predicate Passed<D(!new), E(!new)>(k: Kernel<D, E>, log: seq<Act<D, E>>, p: int, tick: int) {
    exists i :: 0 <= i < |log| && QuietAfter(k, log, i, p, tick)
  }

  /** What a tick of the jumping driver owes its place to: it opens a span, or the tick before it left
  something pinned or a wake that has come. */
  predicate Woken<D(!new), E(!new)>(k: Kernel<D, E>, log: seq<Act<D, E>>, i: nat, tick: int)
    requires i < |log|
  {
    || log[i].Deliver? || i == 0 || log[i - 1].Deliver? || k.forced(log[i - 1].after) || k.standing(log[i - 1].after)
    || !BeforeWake(k.deadlines(log[i - 1].after), log[i - 1].at + tick, log[i].at)
  }

  /** `p` is one of the grid points `cursor, cursor + tick, ...`. */
  predicate GridPoint(cursor: int, p: int, tick: int)
    requires tick >= 1
  {
    GridEnd(cursor, p, tick) == p
  }

  lemma GridRebase(cursor: int, mid: int, p: int, tick: int)
    requires tick >= 1
    ensures p >= mid ==> (GridPoint(cursor, p, tick) <==> GridPoint(GridEnd(cursor, mid, tick), p, tick))
    ensures p >= mid && GridPoint(cursor, p, tick) ==> p >= GridEnd(cursor, mid, tick)
    ensures GridPoint(cursor, p, tick) ==> p >= cursor
  {
    if p >= mid {
      GridSplit(cursor, mid, p, tick);
    }
  }

  /** The log of a span: ticks at grid points of the span, the first one at the cursor. */
  ghost predicate SpanOf<D(!new), E(!new)>(k: Kernel<D, E>, log: seq<Act<D, E>>, cursor: int, until: int, tick: int)
    requires tick >= 1
  {
    && InOrder(log)
    && forall i :: 0 <= i < |log| ==> log[i].Tick? && log[i].at < until && GridPoint(cursor, log[i].at, tick)
  }

  ghost predicate AllTicked<D(!new), E(!new)>(log: seq<Act<D, E>>, cursor: int, until: int, tick: int)
    requires tick >= 1
  {
    forall p :: cursor <= p < until && GridPoint(cursor, p, tick) ==> Ticked(log, p)
  }

  /** The points of a span from a core left unpinned by the tick before the cursor. */
  ghost predicate Skipped<D(!new), E(!new)>(k: Kernel<D, E>, d: D, log: seq<Act<D, E>>, cursor: int, p: int, pinned: bool) {
    !pinned && (log != [] ==> p <= log[0].at) && BeforeWake(k.deadlines(d), cursor, p)
  }

  ghost predicate Jumped<D(!new), E(!new)>(k: Kernel<D, E>, d: D, log: seq<Act<D, E>>, cursor: int, until: int, tick: int, pinned: bool)
    requires tick >= 1
  {
    && (forall p :: cursor <= p < until && GridPoint(cursor, p, tick) ==>
          Ticked(log, p) || Passed(k, log, p, tick) || Skipped(k, d, log, cursor, p, pinned))
    && (forall i :: 1 <= i < |log| ==> Woken(k, log, i, tick))
    && (log != [] && !pinned ==> !BeforeWake(k.deadlines(d), cursor, log[0].at))
  }

  lemma TraceCons<D(!new), E(!new)>(k: Kernel<D, E>, d: D, a: Act<D, E>, rest: seq<Act<D, E>>)
    requires Follows(k, d, a) && Trace(k, a.after, rest)
    ensures Trace(k, d, [a] + rest) && CoreAfter(d, [a] + rest) == CoreAfter(a.after, rest)
  {
    var log := [a] + rest;
    forall i | 0 <= i < |log| ensures Follows(k, CoreAfter(d, log[..i]), log[i]) {
      if i > 0 {
        assert log[..i] == [a] + rest[..i - 1];
        assert CoreAfter(d, log[..i]) == CoreAfter(a.after, rest[..i - 1]);
      }
    }
  }

  lemma AllTickedCons<D(!new), E(!new)>(a: Act<D, E>, rest: seq<Act<D, E>>, cursor: int, until: int, tick: int)
    requires tick >= 1 && a.Tick? && a.at == cursor < until && AllTicked(rest, cursor + tick, until, tick)
    ensures AllTicked([a] + rest, cursor, until, tick)
  {
    forall p | cursor <= p < until && GridPoint(cursor, p, tick) ensures Ticked([a] + rest, p) {
      if p == cursor {
        assert ([a] + rest)[0].at == p;
      } else {
        GridRebase(cursor, cursor + 1, p, tick);
        assert GridEnd(cursor, cursor + 1, tick) == cursor + tick;
        TickedCons(a, rest, p);
      }
    }
  }

  lemma {:induction false} WalkLog<D(!new), E(!new)>(k: Kernel<D, E>, d: D, cursor: int, until: int, tick: int) returns (log: seq<Act<D, E>>)
    requires tick >= 1
    ensures Trace(k, d, log) && CoreAfter(d, log) == Walk(k, d, cursor, until, tick).0
    ensures SpanOf(k, log, cursor, until, tick) && AllTicked(log, cursor, until, tick)
    decreases until - cursor
  {
    hide GridEnd, GridPoint, Ticked;
    log := [];
    if cursor < until {
      var a := Tick(cursor, k.tick(d, cursor));
      var rest := WalkLog(k, a.after, cursor + tick, until, tick);
      log := [a] + rest;
      TraceCons(k, d, a, rest);
      CursorIsPoint(cursor, tick);
      SpanCons(k, a, rest, cursor, cursor, until, tick);
      AllTickedCons(a, rest, cursor, until, tick);
    }
  }

  lemma CursorIsPoint(cursor: int, tick: int)
    requires tick >= 1
    ensures GridPoint(cursor, cursor, tick)
  {
  }

  lemma TickedCons<D(!new), E(!new)>(a: Act<D, E>, rest: seq<Act<D, E>>, p: int)
    requires Ticked(rest, p)
    ensures Ticked([a] + rest, p)
  {
    var i :| 0 <= i < |rest| && rest[i].Tick? && rest[i].at == p;
    assert ([a] + rest)[i + 1] == rest[i];
  }

  /** A tick at grid point `c` goes before a span that starts at the next point. */
  lemma SpanCons<D(!new), E(!new)>(k: Kernel<D, E>, a: Act<D, E>, rest: seq<Act<D, E>>, cursor: int, c: int, until: int, tick: int)
    requires tick >= 1 && a.Tick? && a.at == c < until && GridPoint(cursor, c, tick)
    requires SpanOf(k, rest, c + tick, until, tick)
    ensures SpanOf(k, [a] + rest, cursor, until, tick)
  {
    var log := [a] + rest;
    forall i | 1 <= i < |log| ensures log[i].Tick? && c < log[i].at < until && GridPoint(cursor, log[i].at, tick) {
      assert log[i] == rest[i - 1];
      GridRebase(c + tick, c, log[i].at, tick);
      GridRebase(cursor, c, log[i].at, tick);
      assert GridEnd(c, log[i].at, tick) == GridEnd(c + tick, log[i].at, tick);
    }
    forall i, j | 0 <= i < j < |log| ensures log[i].at < log[j].at && log[j].Tick? {
      assert log[j] == rest[j - 1];
      if i > 0 {
        assert log[i] == rest[i - 1];
      }
    }
  }

  lemma PassedCons<D(!new), E(!new)>(k: Kernel<D, E>, a: Act<D, E>, rest: seq<Act<D, E>>, p: int, tick: int)
    requires Passed(k, rest, p, tick)
    ensures Passed(k, [a] + rest, p, tick)
  {
    hide Pinned, BeforeWake;
    var i :| 0 <= i < |rest| && QuietAfter(k, rest, i, p, tick);
    var log := [a] + rest;
    assert log[i + 1] == rest[i] && (i + 1 < |rest| ==> log[i + 2] == rest[i + 1]);
    assert QuietAfter(k, log, i + 1, p, tick);
  }

  /** The landing is the first grid point at which the wake has come. */
  lemma LandingIsAwake<D(!new), E(!new)>(k: Kernel<D, E>, d: D, cursor: int, until: int, tick: int)
    requires tick >= 1 && cursor < until
    ensures var landing := Landing(k, d, cursor, until, tick);
            && GridPoint(cursor, landing, tick)
            && (landing < until ==> !BeforeWake(k.deadlines(d), cursor, landing))
            && forall p :: cursor <= p < landing && p < until && GridPoint(cursor, p, tick) ==> BeforeWake(k.deadlines(d), cursor, p)
  {
    var landing := Landing(k, d, cursor, until, tick);
    var w := WakeAfter(k.deadlines(d), cursor - 1);
    GridRebase(cursor, until, GridEnd(cursor, until, tick), tick);
    if w.Some? {
      GridRebase(cursor, w.value, GridEnd(cursor, w.value, tick), tick);
    }
    forall p | cursor <= p < landing && p < until && GridPoint(cursor, p, tick) ensures BeforeWake(k.deadlines(d), cursor, p) {
      if w.Some? {
        GridRebase(cursor, w.value, p, tick);
      }
    }
  }

  /** One landing of the jump, and the log of what comes after it. */
  lemma LandingCons<D(!new), E(!new)>(
      k: Kernel<D, E>, d: D, a: Act<D, E>, rest: seq<Act<D, E>>, cursor: int, until: int, tick: int, pinned: bool)
    requires tick >= 1 && cursor < until && a.Tick?
    requires a.at == (if pinned then cursor else Landing(k, d, cursor, until, tick)) < until
    requires SpanOf(k, rest, a.at + tick, until, tick) && Jumped(k, a.after, rest, a.at + tick, until, tick, Pinned(k, a.after))
    ensures SpanOf(k, [a] + rest, cursor, until, tick) && Jumped(k, d, [a] + rest, cursor, until, tick, pinned)
  {
    hide Landing, BeforeWake, InOrder, Armed;
    var log, next := [a] + rest, a.at + tick;
    LandingIsAwake(k, d, cursor, until, tick);
    SpanCons(k, a, rest, cursor, a.at, until, tick);
    forall p | cursor <= p < until && GridPoint(cursor, p, tick)
      ensures Ticked(log, p) || Passed(k, log, p, tick) || Skipped(k, d, log, cursor, p, pinned)
    {
      if p == a.at {
        assert log[0].at == p;
      } else if p > a.at {
        GridRebase(cursor, a.at, p, tick);
        GridRebase(a.at, a.at + 1, p, tick);
        PointLater(k, a, rest, p, tick);
      }
    }
    forall i | 1 <= i < |log| ensures Woken(k, log, i, tick) {
      assert log[i] == rest[i - 1];
      if i >= 2 {
        assert log[i - 1] == rest[i - 2] && Woken(k, rest, i - 1, tick);
      }
    }
  }

  /** A point the rest of the log accounts for. */
  lemma PointLater<D(!new), E(!new)>(k: Kernel<D, E>, a: Act<D, E>, rest: seq<Act<D, E>>, p: int, tick: int)
    requires tick >= 1 && a.Tick? && a.at < p
    requires Ticked(rest, p) || Passed(k, rest, p, tick) || Skipped(k, a.after, rest, a.at + tick, p, Pinned(k, a.after))
    ensures Ticked([a] + rest, p) || Passed(k, [a] + rest, p, tick)
  {
    hide BeforeWake;
    if Ticked(rest, p) {
      TickedCons(a, rest, p);
    } else if Passed(k, rest, p, tick) {
      PassedCons(k, a, rest, p, tick);
    } else {
      assert QuietAfter(k, [a] + rest, 0, p, tick);
    }
  }

  lemma {:induction false} JumpLog<D(!new), E(!new)>(k: Kernel<D, E>, d: D, cursor: int, until: int, tick: int, pinned: bool)
      returns (log: seq<Act<D, E>>)
    requires tick >= 1
    ensures Trace(k, d, log) && CoreAfter(d, log) == Jump(k, d, cursor, until, tick, pinned).0
    ensures SpanOf(k, log, cursor, until, tick) && Jumped(k, d, log, cursor, until, tick, pinned)
    ensures pinned && cursor < until ==> log != [] && log[0].at == cursor
    decreases until - cursor
  {
    hide Landing, Pinned, BeforeWake, Trace, SpanOf, Jumped;
    log := [];
    NoJumpLog(k, d, cursor, until, tick, pinned);
    if cursor < until {
      var landing := if pinned then cursor else Landing(k, d, cursor, until, tick);
      JumpStep(k, d, cursor, until, tick, pinned);
      if landing < until {
        var a := Tick(landing, k.tick(d, landing));
        var rest := JumpLog(k, a.after, landing + tick, until, tick, Pinned(k, a.after));
        log := [a] + rest;
        TraceCons(k, d, a, rest);
        LandingCons(k, d, a, rest, cursor, until, tick, pinned);
      }
    }
  }

  lemma NoJumpLog<D(!new), E(!new)>(k: Kernel<D, E>, d: D, cursor: int, until: int, tick: int, pinned: bool)
    requires tick >= 1
    ensures var log: seq<Act<D, E>> := []; Trace(k, d, log) && SpanOf(k, log, cursor, until, tick)
    ensures cursor >= until || (!pinned && Landing(k, d, cursor, until, tick) >= until) ==>
              Jumped(k, d, [], cursor, until, tick, pinned)
  {
    hide Landing, BeforeWake;
    if cursor < until {
      LandingIsAwake(k, d, cursor, until, tick);
    }
  }

  /** A grid point the log accounts for: fired, or, when the driver jumps, passed over while quiet. */
  ghost predicate Accounted<D(!new), E(!new)>(k: Kernel<D, E>, log: seq<Act<D, E>>, p: int, tick: int, jump: bool) {
    Ticked(log, p) || (jump && Passed(k, log, p, tick))
  }

  /** The log takes the driver from one stand to another: the core is what its acts leave, its ticks lie
  on the grid ahead, every grid point up to the new clock is accounted for, and clock, cursor and cycle
  count agree. */
  ghost predicate Leads<D(!new), E(!new)>(k: Kernel<D, E>, s: Stand<D>, log: seq<Act<D, E>>, e: Stand<D>, tick: int, jump: bool)
    requires tick >= 1
  {
    && s.clock <= e.clock < e.cursor == GridEnd(s.cursor, e.clock + 1, tick)
    && e.cycles == s.cycles + GridPoints(s.cursor, e.clock + 1, tick)
    && Trace(k, s.core, log) && e.core == CoreAfter(s.core, log) && InOrder(log)
    && (forall i :: 0 <= i < |log| ==> s.clock <= log[i].at <= e.clock)
    && (forall i :: 0 <= i < |log| && log[i].Tick? ==> GridPoint(s.cursor, log[i].at, tick))
    && (forall p :: s.cursor <= p <= e.clock && GridPoint(s.cursor, p, tick) ==> Accounted(k, log, p, tick, jump))
    && (jump ==> forall i :: 0 <= i < |log| ==> Woken(k, log, i, tick))
  }

  lemma TraceConcat<D(!new), E(!new)>(k: Kernel<D, E>, d: D, a: seq<Act<D, E>>, b: seq<Act<D, E>>)
    requires Trace(k, d, a) && Trace(k, CoreAfter(d, a), b)
    ensures Trace(k, d, a + b) && CoreAfter(d, a + b) == CoreAfter(CoreAfter(d, a), b)
  {
    var log := a + b;
    forall i | 0 <= i < |log| ensures Follows(k, CoreAfter(d, log[..i]), log[i]) {
      if i < |a| {
        assert log[..i] == a[..i];
      } else {
        assert log[..i] == a + b[..i - |a|];
        assert CoreAfter(d, log[..i]) == CoreAfter(CoreAfter(d, a), b[..i - |a|]);
      }
    }
  }

  lemma InOrderConcat<D(!new), E(!new)>(a: seq<Act<D, E>>, b: seq<Act<D, E>>, clock: int)
    requires InOrder(a) && InOrder(b)
    requires forall i :: 0 <= i < |a| ==> a[i].at <= clock
    requires forall i :: 0 <= i < |b| ==> clock <= b[i].at && (b[i].Tick? ==> clock < b[i].at)
    ensures InOrder(a + b)
  {
    var log := a + b;
    forall i, j | 0 <= i < j < |log| ensures log[i].at <= log[j].at && (log[j].Tick? ==> log[i].at < log[j].at) {
      if i < |a| <= j {
        assert log[i] == a[i] && log[j] == b[j - |a|];
      } else if j < |a| {
        assert log[i] == a[i] && log[j] == a[j];
      } else {
        assert log[i] == b[i - |a|] && log[j] == b[j - |a|];
      }
    }
  }

  /** What accounts for a point still does when more is appended after it, or prefixed before it. */
  lemma AccountedConcat<D(!new), E(!new)>(k: Kernel<D, E>, a: seq<Act<D, E>>, b: seq<Act<D, E>>, p: int, tick: int, jump: bool)
    requires Accounted(k, b, p, tick, jump) || (Accounted(k, a, p, tick, jump) && (b != [] ==> p <= b[0].at))
    ensures Accounted(k, a + b, p, tick, jump)
  {
    hide Pinned, BeforeWake;
    var log := a + b;
    if Ticked(b, p) {
      var i :| 0 <= i < |b| && b[i].Tick? && b[i].at == p;
      assert log[|a| + i] == b[i];
    } else if jump && Passed(k, b, p, tick) {
      var i :| 0 <= i < |b| && QuietAfter(k, b, i, p, tick);
      assert log[|a| + i] == b[i] && (i + 1 < |b| ==> log[|a| + i + 1] == b[i + 1]);
      assert QuietAfter(k, log, |a| + i, p, tick);
    } else if Ticked(a, p) {
      var i :| 0 <= i < |a| && a[i].Tick? && a[i].at == p;
      assert log[i] == a[i];
    } else {
      var i :| 0 <= i < |a| && QuietAfter(k, a, i, p, tick);
      assert log[i] == a[i] && (i + 1 < |log| ==> log[i + 1] == if i + 1 < |a| then a[i + 1] else b[0]);
      assert QuietAfter(k, log, i, p, tick);
    }
  }

  lemma WokenConcat<D(!new), E(!new)>(k: Kernel<D, E>, a: seq<Act<D, E>>, b: seq<Act<D, E>>, tick: int)
    requires forall i :: 0 <= i < |a| ==> Woken(k, a, i, tick)
    requires forall i :: 0 <= i < |b| ==> Woken(k, b, i, tick)
    requires a == [] || b == [] || a[|a| - 1].Deliver? || b[0].Deliver?
    ensures forall i :: 0 <= i < |a + b| ==> Woken(k, a + b, i, tick)
  {
    hide Pinned, BeforeWake;
    var log := a + b;
    forall i | 0 <= i < |log| ensures Woken(k, log, i, tick) {
      if i < |a| {
        assert log[i] == a[i] && Woken(k, a, i, tick) && (i > 0 ==> log[i - 1] == a[i - 1]);
      } else {
        assert log[i] == b[i - |a|] && Woken(k, b, i - |a|, tick);
        assert i > 0 ==> log[i - 1] == if i == |a| then a[i - 1] else b[i - |a| - 1];
      }
    }
  }

  lemma GridConcat<D(!new), E(!new)>(k: Kernel<D, E>, s: Stand<D>, a: seq<Act<D, E>>, m: Stand<D>, b: seq<Act<D, E>>, e: Stand<D>, tick: int, jump: bool)
    requires tick >= 1 && Leads(k, s, a, m, tick, jump) && Leads(k, m, b, e, tick, jump)
    ensures e.cursor == GridEnd(s.cursor, e.clock + 1, tick)
    ensures e.cycles == s.cycles + GridPoints(s.cursor, e.clock + 1, tick)
    ensures forall i :: 0 <= i < |a + b| && (a + b)[i].Tick? ==> GridPoint(s.cursor, (a + b)[i].at, tick)
    ensures forall p :: s.cursor <= p <= e.clock && GridPoint(s.cursor, p, tick) ==> Accounted(k, a + b, p, tick, jump)
  {
    hide GridPoint, Accounted, GridEnd, GridPoints, Woken, Trace, InOrder;
    GridSplit(s.cursor, m.clock + 1, e.clock + 1, tick);
    var log := a + b;
    forall i | 0 <= i < |log| && log[i].Tick? ensures GridPoint(s.cursor, log[i].at, tick) {
      if i < |a| {
        assert log[i] == a[i];
      } else {
        assert log[i] == b[i - |a|];
        GridRebase(m.cursor, m.cursor, log[i].at, tick);
        GridRebase(s.cursor, m.clock + 1, log[i].at, tick);
      }
    }
    forall p | s.cursor <= p <= e.clock && GridPoint(s.cursor, p, tick) ensures Accounted(k, log, p, tick, jump) {
      GridRebase(s.cursor, m.clock + 1, p, tick);
      AccountedConcat(k, a, b, p, tick, jump);
    }
  }

  lemma LeadsOn<D(!new), E(!new)>(k: Kernel<D, E>, s: Stand<D>, a: seq<Act<D, E>>, m: Stand<D>, b: seq<Act<D, E>>, e: Stand<D>, tick: int, jump: bool)
    requires tick >= 1 && Leads(k, s, a, m, tick, jump) && Leads(k, m, b, e, tick, jump)
    requires a == [] || b == [] || a[|a| - 1].Deliver? || b[0].Deliver?
    ensures Leads(k, s, a + b, e, tick, jump)
  {
    hide Accounted, GridEnd, GridPoints, Woken, Trace, InOrder, CoreAfter;
    GridConcat(k, s, a, m, b, e, tick, jump);
    TraceConcat(k, s.core, a, b);
    forall i | 0 <= i < |b| && b[i].Tick? ensures m.clock < b[i].at {
      GridRebase(m.cursor, m.cursor, b[i].at, tick);
    }
    InOrderConcat(a, b, m.clock);
    if jump {
      WokenConcat(k, a, b, tick);
    }
  }

  lemma SpanLeads<D(!new), E(!new)>(k: Kernel<D, E>, s: Stand<D>, log: seq<Act<D, E>>, t: int, tick: int, jump: bool)
    requires tick >= 1 && s.clock < t && s.clock < s.cursor && Trace(k, s.core, log) && SpanOf(k, log, s.cursor, t + 1, tick)
    requires if jump then Jumped(k, s.core, log, s.cursor, t + 1, tick, true) else AllTicked(log, s.cursor, t + 1, tick)
    ensures var e := Stand(CoreAfter(s.core, log), t, GridEnd(s.cursor, t + 1, tick), s.cycles + GridPoints(s.cursor, t + 1, tick));
            Leads(k, s, log, e, tick, jump)
  {
    hide Pinned, BeforeWake, Trace, GridPoints, GridPoint, InOrder, Ticked, Passed;
    forall i | 0 <= i < |log| ensures s.clock <= log[i].at <= t {
      GridRebase(s.cursor, s.cursor, log[i].at, tick);
    }
    forall i | 0 <= i < |log| && jump ensures Woken(k, log, i, tick) {
      if i == 0 {
        FirstIsWoken(k, log, tick);
      }
    }
  }

  lemma FirstIsWoken<D(!new), E(!new)>(k: Kernel<D, E>, log: seq<Act<D, E>>, tick: int)
    requires log != []
    ensures Woken(k, log, 0, tick)
  {
  }

  lemma NoLog<D(!new), E(!new)>(k: Kernel<D, E>, s: Stand<D>, tick: int, jump: bool)
    requires tick >= 1 && s.clock < s.cursor
    ensures Leads(k, s, [], s, tick, jump)
  {
  }

  lemma SpanLog<D(!new), E(!new)>(k: Kernel<D, E>, s: Stand<D>, t: int, tick: int, jump: bool) returns (log: seq<Act<D, E>>)
    requires tick >= 1 && s.clock < s.cursor
    ensures Leads(k, s, log, Advanced(k, s, t, tick, jump), tick, jump) && Deliveries(log) == []
  {
    hide Leads, Trace, Walk, Jump, Jumped, AllTicked;
    if t <= s.clock {
      log := [];
      NoLog(k, s, tick, jump);
    } else {
      WalkEndsOnTheGrid(k, s.core, s.cursor, t + 1, tick);
      JumpEndsOnTheGrid(k, s.core, s.cursor, t + 1, tick, true);
      if jump {
        log := JumpLog(k, s.core, s.cursor, t + 1, tick, true);
      } else {
        log := WalkLog(k, s.core, s.cursor, t + 1, tick);
      }
      SpanLeads(k, s, log, t, tick, jump);
      NothingDelivered(log);
    }
  }

  lemma {:induction false} NothingDelivered<D(!new), E(!new)>(log: seq<Act<D, E>>)
    requires forall i :: 0 <= i < |log| ==> log[i].Tick?
    ensures Deliveries(log) == []
  {
    if log != [] {
      NothingDelivered(log[1..]);
    }
  }

  lemma {:induction false} DeliveriesConcat<D(!new), E(!new)>(a: seq<Act<D, E>>, b: seq<Act<D, E>>)
    ensures Deliveries(a + b) == Deliveries(a) + Deliveries(b)
  {
    if a == [] {
      assert a + b == b;
    } else {
      assert (a + b)[1..] == a[1..] + b;
      DeliveriesConcat(a[1..], b);
    }
  }

  lemma DeliveryLog<D(!new), E(!new)>(k: Kernel<D, E>, s: Stand<D>, event: E, tick: int, jump: bool) returns (log: seq<Act<D, E>>)
    requires tick >= 1 && s.clock < s.cursor
    ensures Leads(k, s, log, Fed(k, s, event), tick, jump)
    ensures Deliveries(log) == [Timed(s.clock, event)] && |log| == 1 && log[0].Deliver?
  {
    var a := Deliver(s.clock, event, k.deliver(s.core, event, s.clock));
    log := [a];
    TraceCons(k, s.core, a, []);
    assert log[1..] == [];
  }

  /** The latest instant up to which `n` events have taken the clock: the start, or the largest positive
  stamp among them if that is later. */
  function Latest<E>(start: int, events: seq<Timed<E>>, n: nat): (t: int)
    requires n <= |events|
    ensures t >= start && forall i :: 0 <= i < n && events[i].at > 0 ==> t >= events[i].at
    ensures t == start || exists i :: 0 <= i < n && events[i].at > 0 && t == events[i].at
  {
    if n == 0 then start
    else
      var t, at := Latest(start, events, n - 1), events[n - 1].at;
      if at > 0 && at > t then at else t
  }

  predicate DeclaresForeign<D(!new), E(!new)>(k: Kernel<D, E>, e: E) {
    exists f :: f in k.families(e) && f.1 > 0 && f.1 != k.roundSec
  }

  /** The deliveries are events `i, i + 1, ...`, each once, in order, at the latest instant so far; none
  of them declares a foreign family, and they stop at the first event that does or at the end. */
  ghost predicate Tells<D(!new), E(!new)>(
      k: Kernel<D, E>, events: seq<Timed<E>>, i: nat, start: int, tail: nat, deliveries: seq<Timed<E>>, out: Outcome<D>)
  {
    var n := i + |deliveries|;
    && n <= |events|
    && (forall j :: 0 <= j < |deliveries| ==> deliveries[j] == Timed(Latest(start, events, i + j + 1), events[i + j].event))
    && (forall j :: i <= j < n ==> !DeclaresForeign(k, events[j].event))
    && match out
       case Finished(at, delivered, startAt) =>
         n == delivered == |events| && startAt == start && at.clock == Latest(start, events, n) + tail
       case Refused(at, foreign) =>
         && n < |events| && DeclaresForeign(k, events[n].event) && at.clock == Latest(start, events, n + 1)
         && forall f :: f in foreign <==> f in k.families(events[n].event) && f.1 > 0 && f.1 != k.roundSec
  }

  lemma TellsOn<D(!new), E(!new)>(
      k: Kernel<D, E>, events: seq<Timed<E>>, i: nat, start: int, tail: nat, deliveries: seq<Timed<E>>, out: Outcome<D>)
    requires i < |events| && Tells(k, events, i + 1, start, tail, deliveries, out) && !DeclaresForeign(k, events[i].event)
    ensures Tells(k, events, i, start, tail, [Timed(Latest(start, events, i + 1), events[i].event)] + deliveries, out)
  {
    hide DeclaresForeign, Latest;
    var more := [Timed(Latest(start, events, i + 1), events[i].event)] + deliveries;
    forall j | 0 <= j < |more| ensures more[j] == Timed(Latest(start, events, i + j + 1), events[i + j].event) {
      if j > 0 {
        assert more[j] == deliveries[j - 1] && i + 1 + (j - 1) == i + j;
      }
    }
  }

  /** A span, a delivery and what comes after it. */
  lemma DeliveredLog<D(!new), E(!new)>(
      k: Kernel<D, E>, s: Stand<D>, span: seq<Act<D, E>>, w: Stand<D>, event: E, rest: seq<Act<D, E>>, end: Stand<D>, tick: int, jump: bool)
      returns (log: seq<Act<D, E>>)
    requires tick >= 1 && w.clock < w.cursor && Leads(k, s, span, w, tick, jump) && Leads(k, Fed(k, w, event), rest, end, tick, jump)
    requires Deliveries(span) == []
    ensures Leads(k, s, log, end, tick, jump) && Deliveries(log) == [Timed(w.clock, event)] + Deliveries(rest)
  {
    hide Leads, Deliveries;
    var fed := DeliveryLog(k, w, event, tick, jump);
    LeadsOn(k, w, fed, Fed(k, w, event), rest, end, tick, jump);
    LeadsOn(k, s, span, w, fed + rest, end, tick, jump);
    DeliveriesConcat(fed, rest);
    DeliveriesConcat(span, fed + rest);
    log := span + (fed + rest);
  }

  lemma {:induction false} ReplayedLog<D(!new), E(!new)>(
      k: Kernel<D, E>, s: Stand<D>, events: seq<Timed<E>>, i: nat, startAt: int, tick: int, tail: nat, jump: bool)
      returns (log: seq<Act<D, E>>)
    requires tick >= 1 && i <= |events| && s.clock < s.cursor && s.clock == Latest(startAt, events, i)
    ensures var out := Replayed(k, s, events, i, startAt, tick, tail, jump);
            Leads(k, s, log, out.at, tick, jump) && Tells(k, events, i, startAt, tail, Deliveries(log), out)
    decreases |events| - i
  {
    hide Leads, Advanced, Deliveries, Latest, Tells, ForeignFamilies, DeclaresForeign;
    var t := if i == |events| then s.clock + tail else ClockAt(s.clock, events[i].at);
    log := SpanLog(k, s, t, tick, jump);
    ClockReached(k, s, t, tick, jump);
    var w := Advanced(k, s, t, tick, jump);
    if i == |events| {
      TellsFinished(k, events, startAt, tail, w);
    } else {
      var e := events[i].event;
      LatestStep(startAt, events, i);
      ForeignIffDeclared(k, e);
      if DeclaresForeign(k, e) {
        TellsRefused(k, events, i, startAt, tail, w);
      } else {
        var rest := ReplayedLog(k, Fed(k, w, e), events, i + 1, startAt, tick, tail, jump);
        var out := Replayed(k, Fed(k, w, e), events, i + 1, startAt, tick, tail, jump);
        TellsOn(k, events, i, startAt, tail, Deliveries(rest), out);
        log := DeliveredLog(k, s, log, w, e, rest, out.at, tick, jump);
      }
    }
  }

  lemma LatestStep<E>(start: int, events: seq<Timed<E>>, i: nat)
    requires i < |events|
    ensures var clock := Latest(start, events, i);
            var t := ClockAt(clock, events[i].at);
            Latest(start, events, i + 1) == if t > clock then t else clock
  {
  }

  lemma TellsFinished<D(!new), E(!new)>(k: Kernel<D, E>, events: seq<Timed<E>>, start: int, tail: nat, w: Stand<D>)
    requires w.clock == Latest(start, events, |events|) + tail
    ensures Tells(k, events, |events|, start, tail, [], Finished(w, |events|, start))
  {
  }

  lemma TellsRefused<D(!new), E(!new)>(k: Kernel<D, E>, events: seq<Timed<E>>, i: nat, start: int, tail: nat, w: Stand<D>)
    requires i < |events| && DeclaresForeign(k, events[i].event) && w.clock == Latest(start, events, i + 1)
    ensures Tells(k, events, i, start, tail, [], Refused(w, ForeignFamilies(k.families(events[i].event), k.roundSec)))
  {
  }

  lemma ForeignIffDeclared<D(!new), E(!new)>(k: Kernel<D, E>, e: E)
    ensures ForeignFamilies(k.families(e), k.roundSec) != {} <==> DeclaresForeign(k, e)
  {
    if DeclaresForeign(k, e) {
      var f :| f in k.families(e) && f.1 > 0 && f.1 != k.roundSec;
      assert f in ForeignFamilies(k.families(e), k.roundSec);
    }
  }

  lemma ClockReached<D(!new), E(!new)>(k: Kernel<D, E>, s: Stand<D>, t: int, tick: int, jump: bool)
    requires tick >= 1 && s.clock < s.cursor
    ensures var w := Advanced(k, s, t, tick, jump); w.clock == (if t > s.clock then t else s.clock) < w.cursor
  {
    WalkEndsOnTheGrid(k, s.core, s.cursor, t + 1, tick);
    JumpEndsOnTheGrid(k, s.core, s.cursor, t + 1, tick, true);
  }

  /** The left fold of deliveries. */
  function DeliverAll<D(!new), E(!new)>(k: Kernel<D, E>, d: D, deliveries: seq<Timed<E>>): D {
    if deliveries == [] then d
    else
      var last := deliveries[|deliveries| - 1];
      k.deliver(DeliverAll(k, d, deliveries[..|deliveries| - 1]), last.event, last.at)
  }

  /** For a core whose ticks change nothing, a log comes down to its deliveries. */
  lemma {:induction false} IdleTicksLeaveDeliveries<D(!new), E(!new)>(k: Kernel<D, E>, d: D, log: seq<Act<D, E>>)
    requires Trace(k, d, log) && forall c, at :: k.tick(c, at) == c
    ensures CoreAfter(d, log) == DeliverAll(k, d, Deliveries(log))
  {
    hide Deliveries, Trace;
    if log == [] {
      NothingDelivered(log);
    } else {
      var init, last := log[..|log| - 1], log[|log| - 1];
      TraceSnoc(k, d, log);
      IdleTicksLeaveDeliveries(k, d, init);
      assert log == init + [last];
      DeliveriesConcat(init, [last]);
      if last.Deliver? {
        DeliverLast(k, d, Deliveries(init), last);
      } else {
        NothingDelivered([last]);
        assert Deliveries(init) + [] == Deliveries(init);
      }
    }
  }

  lemma TraceSnoc<D(!new), E(!new)>(k: Kernel<D, E>, d: D, log: seq<Act<D, E>>)
    requires Trace(k, d, log) && log != []
    ensures var n := |log| - 1; Trace(k, d, log[..n]) && Follows(k, CoreAfter(d, log[..n]), log[n])
  {
    var n := |log| - 1;
    forall i | 0 <= i < n ensures Follows(k, CoreAfter(d, log[..n][..i]), log[i]) {
      assert log[..n][..i] == log[..i];
    }
  }

  lemma DeliverLast<D(!new), E(!new)>(k: Kernel<D, E>, d: D, deliveries: seq<Timed<E>>, last: Act<D, E>)
    requires last.Deliver?
    ensures Deliveries([last]) == [Timed(last.at, last.event)]
    ensures DeliverAll(k, d, deliveries + Deliveries([last])) == k.deliver(DeliverAll(k, d, deliveries), last.event, last.at)
  {
    assert [last][1..] == [];
    assert (deliveries + [Timed(last.at, last.event)])[..|deliveries|] == deliveries;
  }

  /** What a whole replay from instant `start` is, told by its log: the core is what the acts leave, every
  tick is a grid point after the start, every grid point up to the last instant is fired or, when the
  driver jumps, was quiet since the tick before it, and cycles and cursor are those of the grid. */
  ghost predicate Chronicle<D(!new), E(!new)>(
      k: Kernel<D, E>, d: D, log: seq<Act<D, E>>, start: int, end: Stand<D>, tick: int, jump: bool)
    requires tick >= 1
  {
    && Trace(k, d, log) && end.core == CoreAfter(d, log) && InOrder(log) && start <= end.clock
    && end.cycles == (end.clock - start) / tick && end.cursor == start + (end.cycles + 1) * tick
    && (forall i :: 0 <= i < |log| ==> start <= log[i].at <= end.clock)
    && (forall i :: 0 <= i < |log| && log[i].Tick? ==> start < log[i].at && (log[i].at - start) % tick == 0)
    && (forall p :: start < p <= end.clock && (p - start) % tick == 0 ==> Accounted(k, log, p, tick, jump))
    && (jump ==> forall i :: 0 <= i < |log| ==> Woken(k, log, i, tick))
  }

  /** The points of the grid anchored at `start`. */
  lemma AnchoredPoint(start: int, p: int, tick: int)
    requires tick >= 1 && p > start
    ensures GridPoint(start + tick, p, tick) <==> (p - start) % tick == 0
  {
    if p >= start + tick {
      OnTheGrid(start + tick, p, tick);
      RemainderStep(p - start, tick);
    } else {
      QuotientIs(p - start, tick, 0);
    }
  }

  lemma AnchoredCycles(start: int, clock: int, tick: int)
    requires tick >= 1 && start <= clock
    ensures var n := (clock - start) / tick;
            && GridPoints(start + tick, clock + 1, tick) == n >= 0
            && GridEnd(start + tick, clock + 1, tick) == start + (n + 1) * tick
  {
    GridClosedForm(start + tick, clock + 1, tick);
    Distribute((clock - start) / tick, tick);
    if clock - start < tick {
      QuotientIs(clock - start, tick, 0);
    } else {
      QuotientStep(clock - start - tick, tick);
    }
  }

  lemma LedFromBoot<D(!new), E(!new)>(k: Kernel<D, E>, d: D, log: seq<Act<D, E>>, start: int, end: Stand<D>, tick: int, jump: bool)
    requires tick >= 1 && Leads(k, Stand(d, start, start + tick, 0), log, end, tick, jump)
    ensures Chronicle(k, d, log, start, end, tick, jump)
  {
    hide GridPoint, GridEnd, GridPoints, Accounted, Trace, InOrder, Woken, CoreAfter;
    AnchoredCycles(start, end.clock, tick);
    forall i | 0 <= i < |log| && log[i].Tick? ensures start < log[i].at && (log[i].at - start) % tick == 0 {
      GridRebase(start + tick, start + tick, log[i].at, tick);
      AnchoredPoint(start, log[i].at, tick);
    }
    forall p | start < p <= end.clock && (p - start) % tick == 0 ensures Accounted(k, log, p, tick, jump) {
      AnchoredPoint(start, p, tick);
      GridRebase(start + tick, start + tick, p, tick);
    }
  }

  /** Every replay has such a log. */
  lemma ReplayHasLog<D(!new), E(!new)>(k: Kernel<D, E>, d: D, events: seq<Timed<E>>, tick: int, tail: nat, jump: bool) returns (log: seq<Act<D, E>>)
    requires tick >= 1
    ensures var out, start := ReplayRun(k, d, events, tick, tail, jump), if events != [] && events[0].at > 0 then events[0].at else 0;
            Chronicle(k, d, log, start, out.at, tick, jump) && Tells(k, events, 0, start, tail, Deliveries(log), out)
  {
    hide Leads, Tells, Chronicle, Replayed;
    var s := Boot(d, events, tick);
    log := ReplayedLog(k, s, events, 0, s.clock, tick, tail, jump);
    LedFromBoot(k, d, log, s.clock, ReplayRun(k, d, events, tick, tail, jump).at, tick, jump);
  }

  // ---------- the driver ----------

  method CollectForeign(declared: seq<Family>, roundSec: int) returns (foreign: seq<Family>)
    ensures (set f | f in foreign) == ForeignFamilies(declared, roundSec)
    ensures forall i, j :: 0 <= i < j < |foreign| ==> foreign[i] != foreign[j]
  {
    foreign := [];
    for i := 0 to |declared|
      invariant forall f :: f in foreign <==> f in declared[..i] && f.1 > 0 && f.1 != roundSec
      invariant forall i, j :: 0 <= i < j < |foreign| ==> foreign[i] != foreign[j]
    {
      var f := declared[i];
      if f.1 > 0 && f.1 != roundSec && f !in foreign {
        foreign := foreign + [f];
      }
    }
    assert declared[..|declared|] == declared;
  }

  class EventBacktester<D(!new), E(!new)> {
    const kernel: Kernel<D, E>
    const tickMs: int
    const tailMs: nat
    var core: D
    /** The `evaluations` feed counter: one per scheduled cycle, run or credited. */
    var cycles: nat

    constructor (kernel: Kernel<D, E>, core: D, tickMs: int, tailMs: int)
      ensures this.kernel == kernel && this.core == core && cycles == 0
      ensures this.tickMs == if tickMs >= 1 then tickMs else 1
      ensures this.tailMs == if tailMs > 0 then tailMs else 0
    {
      this.kernel, this.core, cycles := kernel, core, 0;
      this.tickMs := if tickMs >= 1 then tickMs else 1;
      this.tailMs := if tailMs > 0 then tailMs else 0;
    }

    method Step(now: int)
      modifies this
      ensures core == kernel.tick(old(core), now) && cycles == old(cycles) + 1
    {
      core := kernel.tick(core, now);
      cycles := cycles + 1;
    }

    method CreditCycles(n: nat)
      modifies this`cycles
      ensures cycles == old(cycles) + n
    {
      cycles := cycles + n;
    }

    /** Under shadow evolution or on a live kernel: fire every grid point. */
    method EveryTick(cursor: int, until: int) returns (next: int)
      requires tickMs >= 1
      modifies this
      ensures (core, next) == Walk(kernel, old(core), cursor, until, tickMs)
      ensures cycles == old(cycles) + GridPoints(cursor, until, tickMs)
    {
      next := cursor;
      while next < until
        invariant Walk(kernel, core, next, until, tickMs) == Walk(kernel, old(core), cursor, until, tickMs)
        invariant cycles + GridPoints(next, until, tickMs) == old(cycles) + GridPoints(cursor, until, tickMs)
      {
        Step(next);
        next := next + tickMs;
      }
    }

    /** Grid points from `cursor` up to instant `t`, and the point they lead to. */
    method CeilOntoGrid(cursor: int, t: int) returns (ticks: nat, landing: int)
      requires tickMs >= 1
      ensures ticks == GridPoints(cursor, t, tickMs) && landing == GridEnd(cursor, t, tickMs)
    {
      GridClosedForm(cursor, t, tickMs);
      var d := t - cursor;
      ticks := if d <= 0 then 0 else (d - 1) / tickMs + 1;
      landing := cursor + ticks * tickMs;
    }

    /** Crosses the quiet part of a span: credits the grid points before the next wake and
    lands on the first one at or after it, or on the end of the span. */
    method CrossQuietSpan(cursor: int, until: int) returns (next: int)
      requires tickMs >= 1 && cursor < until
      modifies this`cycles
      ensures next == Landing(kernel, core, cursor, until, tickMs)
      ensures cycles + GridPoints(next, until, tickMs) == old(cycles) + GridPoints(cursor, until, tickMs)
    {
      LandingOnGrid(kernel, core, cursor, until, tickMs);
      var wake := NextReplayWake(kernel.deadlines(core), cursor - 1);
      OneWake(kernel.deadlines(core), cursor - 1, wake, WakeAfter(kernel.deadlines(core), cursor - 1));
      var landing := cursor;
      if wake.Some? {
        var _, p := CeilOntoGrid(cursor, wake.value);
        landing := p;
      }
      if wake.None? || landing >= until {
        var skipped, end := CeilOntoGrid(cursor, until);
        CreditCycles(skipped);
        return end;
      }
      if landing > cursor {
        var skipped := (landing - cursor) / tickMs;
        CreditCycles(skipped);
      }
      return landing;
    }

    /** Runs the maintenance grid from `cursor` up to `until`, exclusive.  Whatever the core does,
    every grid point of the span is counted once, stepped or credited, and the cursor ends where
    the walk ends. */
    method JumpGrid(cursor: int, until: int) returns (next: int)
      requires tickMs >= 1
      modifies this
      ensures (core, next) == Span(kernel, old(core), cursor, until, tickMs, JumpAllowed(kernel))
      ensures next == GridEnd(cursor, until, tickMs)
      ensures cycles == old(cycles) + GridPoints(cursor, until, tickMs)
    {
      hide Landing, GridEnd, Walk;
      WalkEndsOnTheGrid(kernel, core, cursor, until, tickMs);
      JumpEndsOnTheGrid(kernel, core, cursor, until, tickMs, true);
      if !JumpAllowed(kernel) {
        next := EveryTick(cursor, until);
        return;
      }
      next := cursor;
      var forceNext := true;
      while next < until
        invariant Jump(kernel, core, next, until, tickMs, forceNext) == Jump(kernel, old(core), cursor, until, tickMs, true)
        invariant cycles + GridPoints(next, until, tickMs) == old(cycles) + GridPoints(cursor, until, tickMs)
      {
        if !forceNext {
          next := CrossQuietSpan(next, until);
          if next >= until {
            return;
          }
        }
        Step(next);
        forceNext := kernel.forced(core) || kernel.standing(core);
        next := next + tickMs;
      }
    }

    method AdvanceTo(clock: int, cursor: int, t: int) returns (clock': int, cursor': int)
      requires tickMs >= 1
      modifies this
      ensures Stand(core, clock', cursor', cycles) ==
              Advanced(kernel, Stand(old(core), clock, cursor, old(cycles)), t, tickMs, JumpAllowed(kernel))
    {
      clock', cursor' := clock, cursor;
      if t > clock {
        cursor' := JumpGrid(cursor, t + 1);
        clock' := t;
      }
    }

    /** Replays a whole event stream.  The log says what the core was made to do: every event up to
    the end or the first foreign one is delivered once, in order, at the latest instant so far, among the
    ticks of the grid. */
    method Run(events: seq<Timed<E>>) returns (out: Outcome<D>, ghost log: seq<Act<D, E>>)
      requires tickMs >= 1 && cycles == 0
      modifies this
      ensures core == out.at.core && cycles == out.at.cycles
      ensures var start := if events != [] && events[0].at > 0 then events[0].at else 0;
              && Chronicle(kernel, old(core), log, start, out.at, tickMs, kernel.replaySched && !kernel.shadowEnabled)
              && Tells(kernel, events, 0, start, tailMs, Deliveries(log), out)
      ensures out == ReplayRun(kernel, old(core), events, tickMs, tailMs, JumpAllowed(kernel))
      ensures Cadence(out) == Cadence(ReplayRun(kernel, old(core), events, tickMs, tailMs, false))
      ensures SafeRun(kernel, Boot(old(core), events, tickMs), events, 0, tickMs, tailMs) ==>
                out == ReplayRun(kernel, old(core), events, tickMs, tailMs, false)
    {
      hide Advanced, SafeRun, Chronicle, Tells, Deliveries;
      log := ReplayHasLog(kernel, core, events, tickMs, tailMs, JumpAllowed(kernel));
      var clock := if events == [] then 0 else ClockAt(0, events[0].at);
      var startAt := clock;
      var delivered := 0;
      var cursor := clock + tickMs;
      ghost var jump, boot := JumpAllowed(kernel), Boot(core, events, tickMs);
      ghost var goal := ReplayRun(kernel, core, events, tickMs, tailMs, jump);
      CadenceIgnoresCore(kernel, boot, boot, events, 0, startAt, tickMs, tailMs, jump);
      if SafeRun(kernel, boot, events, 0, tickMs, tailMs) {
        ReplayIsWalk(kernel, boot, events, 0, startAt, tickMs, tailMs);
      }
      while delivered < |events|
        invariant 0 <= delivered <= |events|
        invariant goal == Replayed(kernel, Stand(core, clock, cursor, cycles), events, delivered, startAt, tickMs, tailMs, jump)
      {
        var te := events[delivered];
        var at := ClockAt(clock, te.at);
        clock, cursor := AdvanceTo(clock, cursor, at);
        var foreign := CollectForeign(kernel.families(te.event), kernel.roundSec);
        if foreign != [] {
          out := Refused(Stand(core, clock, cursor, cycles), set f | f in foreign);
          assert foreign[0] in out.foreign;
          return;
        }
        core := kernel.deliver(core, te.event, clock);
        delivered := delivered + 1;
      }
      NothingAhead(kernel, Stand(core, clock, cursor, cycles), tickMs, jump);
      if tailMs > 0 {
        clock, cursor := AdvanceTo(clock, cursor, clock + tailMs);
      }
      out := Finished(Stand(core, clock, cursor, cycles), delivered, startAt);
    }
  }

  lemma NothingAhead<D(!new), E(!new)>(k: Kernel<D, E>, s: Stand<D>, tick: int, jump: bool)
    requires tick >= 1
    ensures Advanced(k, s, s.clock, tick, jump) == s
  {
  }
}

/** The exit ladder of `exit_policy.rs`. */
module ExitPolicy {
  import opened Wrappers

  /* The interval-compensated state update against the tick-by-tick one, and the verdict, which never
  loses a protective stop. */

  // ---------- configuration, book, state ----------

  datatype Config = Config(
    forceExitSec: int, minTimeLeftSec: int,
    takeProfitPct: real, stopLossPct: real, holderStopPct: real,
    simpleExit: bool, dynamicStop: bool, stopTightenStartSec: int, stopMinPct: real,
    trailing: bool, trailingMinHighPct: real, minTrailPct: real,
    proportionalTrail: bool, proportionalTrailPct: real, proportionalTrailMinPct: real, proportionalMinGivebackPct: real,
    tightStop: bool, tightStopPct: real,
    ratchet: bool, ratchetConfirmTicks: nat, ratchetTolerancePct: real,
    maxBidWickPct: real, maxLastPriceAgeSec: int,
    staleProfitPct: real, staleBidSec: int, stagnantProfitPct: real, stagnantSec: int,
    depthCollapsePct: real, exitGraceSec: int, makerForTpOnly: bool, makerFirst: bool)

  /** The scalars of a book the exit path reads. */
  datatype Book = Book(bestBid: real, bestAsk: real, mid: real, bidDepth: real, askDepth: real, hasAsks: bool)

  /** What a position remembers between ticks. */
  datatype Memory = Memory(
    highPnlPct: real, lowPnlPct: real, wasPositive: bool,
    highWaterMark: real, confirmCount: nat, confirmedHigh: real,
    lastBid: real, bidSince: int, lastQuoteAt: int,
    progressAt: int, progressPct: real, initialDepth: real)

  const U32_MAX := 0xFFFF_FFFF
  const REPLAY_TICK_MS := 1

  function Max(a: real, b: real): real {
    if a >= b then a else b
  }

  function Min(a: real, b: real): real {
    if a <= b then a else b
  }

  function Abs(x: real): real {
    if x < 0.0 then 0.0 - x else x
  }

  function PnlPct(price: real, entry: real): real {
    if entry > 0.0 then (price - entry) / entry * 100.0 else 0.0
  }

  /** The live best bid, or nothing. */
  function ExecutableBid(book: Option<Book>): real {
    if book.Some? && book.value.bestBid > 0.0 then book.value.bestBid else 0.0
  }

  // ---------- the state update ----------

  /** Whether a maintenance pass on this book changes anything at all. */
  predicate Observes(entry: real, book: Option<Book>) {
    entry > 0.0 && book.Some? && book.value.bestBid > 0.0
  }

  /** Ticks between two runs that were not run. */
  function Skipped(now: int, lastRun: int, tickMs: int): nat {
    if lastRun >= now then 0 else (now - lastRun - 1) / (if tickMs > 0 then tickMs else REPLAY_TICK_MS)
  }

  function SaturatingAdd(a: nat, b: nat): nat {
    if a + b > U32_MAX then U32_MAX else a + b
  }

  predicate NearHigh(val: real, high: real, cfg: Config) {
    high > 0.0 && Abs(val - high) / high * 100.0 < cfg.ratchetTolerancePct
  }

  /** The high-water mark and its confirmation counter, with `skipped` ticks made up for. */
  function Ratcheted(m: Memory, val: real, skipped: nat, cfg: Config): Memory {
    if val > m.highWaterMark then m.(highWaterMark := val, confirmCount := 1)
    else if NearHigh(val, m.highWaterMark, cfg) then
      var count := SaturatingAdd(SaturatingAdd(m.confirmCount, if skipped < U32_MAX - 1 then skipped else U32_MAX - 1), 1);
      m.(confirmCount := count, confirmedHigh := if count >= cfg.ratchetConfirmTicks then m.highWaterMark else m.confirmedHigh)
    else m.(confirmCount := 0)
  }

  /** Extremes of the position's profit. */
  function Marked(m: Memory, pct: real, now: int): Memory {
    m.(lastQuoteAt := now,
    highPnlPct := if pct > m.highPnlPct then pct else m.highPnlPct,
    lowPnlPct := if pct < m.lowPnlPct then pct else m.lowPnlPct,
    wasPositive := m.wasPositive || pct > 0.0)
  }

  /** Depth, staleness and progress. */
  function Stamped(m: Memory, pct: real, book: Book, now: int): Memory {
    m.(initialDepth := if m.initialDepth == 0.0 then book.bidDepth + book.askDepth else m.initialDepth,
    lastBid := book.bestBid,
    bidSince := if book.bestBid != m.lastBid then now else m.bidSince,
    progressAt := if Abs(pct - m.progressPct) > 1.0 then now else m.progressAt,
    progressPct := if Abs(pct - m.progressPct) > 1.0 then pct else m.progressPct)
  }

  /** What one update leaves, with the ticks since `lastRun` made up for. */
  function Updated(m: Memory, entry: real, book: Option<Book>, now: int, cfg: Config, lastRun: int, tickMs: int): Memory {
    if !Observes(entry, book) then m
    else
      var val := book.value.bestBid;
      var pct := PnlPct(val, entry);
      Stamped(Ratcheted(Marked(m, pct, now), val, Skipped(now, lastRun, tickMs), cfg), pct, book.value, now)
  }

  /** The plain update: nothing to make up for. */
  function PlainUpdated(m: Memory, entry: real, book: Option<Book>, now: int, cfg: Config): Memory {
    Updated(m, entry, book, now, cfg, now, REPLAY_TICK_MS)
  }

  /** The state a position carries, updated in place. */
  class ExitState {
    var highPnlPct: real
    var lowPnlPct: real
    var wasPositive: bool
    var highWaterMark: real
    var confirmCount: nat
    var confirmedHigh: real
    var lastBid: real
    var bidSince: int
    var lastQuoteAt: int
    var progressAt: int
    var progressPct: real
    var initialDepth: real

    function Contents(): Memory
      reads this
    {
      Memory(highPnlPct, lowPnlPct, wasPositive, highWaterMark, confirmCount, confirmedHigh,
             lastBid, bidSince, lastQuoteAt, progressAt, progressPct, initialDepth)
    }

    /** At the entry fill, itself a real price. */
    constructor (entry: real, now: int)
      ensures Contents() == Memory(0.0, 0.0, false, entry, 0, entry, entry, now, now, now, 0.0, 0.0)
    {
      highPnlPct, lowPnlPct, wasPositive, highWaterMark, confirmCount, confirmedHigh := 0.0, 0.0, false, entry, 0, entry;
      lastBid, bidSince, lastQuoteAt, progressAt, progressPct, initialDepth := entry, now, now, now, 0.0, 0.0;
    }

    method Mark(pct: real, now: int)
      modifies this
      ensures Contents() == Marked(old(Contents()), pct, now)
    {
      lastQuoteAt := now;
      if pct > highPnlPct {
        highPnlPct := pct;
      }
      if pct < lowPnlPct {
        lowPnlPct := pct;
      }
      if pct > 0.0 {
        wasPositive := true;
      }
    }

    method Ratchet(val: real, skipped: nat, cfg: Config)
      modifies this
      ensures Contents() == Ratcheted(old(Contents()), val, skipped, cfg)
    {
      hide NearHigh, SaturatingAdd;
      if val > highWaterMark {
        highWaterMark := val;
        confirmCount := 1;
      } else if NearHigh(val, highWaterMark, cfg) {
        confirmCount := SaturatingAdd(SaturatingAdd(confirmCount, if skipped < U32_MAX - 1 then skipped else U32_MAX - 1), 1);
        if confirmCount >= cfg.ratchetConfirmTicks {
          confirmedHigh := highWaterMark;
        }
      } else {
        confirmCount := 0;
      }
    }

    method Stamp(pct: real, book: Book, now: int)
      modifies this
      ensures Contents() == Stamped(old(Contents()), pct, book, now)
    {
      if initialDepth == 0.0 {
        initialDepth := book.bidDepth + book.askDepth;
      }
      if book.bestBid != lastBid {
        lastBid := book.bestBid;
        bidSince := now;
      }
      if Abs(pct - progressPct) > 1.0 {
        progressAt := now;
        progressPct := pct;
      }
    }

    method UpdateInterval(entry: real, book: Option<Book>, now: int, cfg: Config, lastRun: int, tickMs: int)
      modifies this
      ensures Contents() == Updated(old(Contents()), entry, book, now, cfg, lastRun, tickMs)
    {
      hide PnlPct, Skipped, Ratcheted, Marked, Stamped, ExitState.Contents;
      if book.None? || entry <= 0.0 {
        return;
      }
      var val := ExecutableBid(book);
      if val <= 0.0 {
        return;
      }
      var pct := PnlPct(val, entry);
      Mark(pct, now);
      Ratchet(val, Skipped(now, lastRun, tickMs), cfg);
      Stamp(pct, book.value, now);
    }

    method Update(entry: real, book: Option<Book>, now: int, cfg: Config)
      modifies this
      ensures Contents() == PlainUpdated(old(Contents()), entry, book, now, cfg)
    {
      UpdateInterval(entry, book, now, cfg, now, REPLAY_TICK_MS);
    }
  }

  // ---------- one compensated update is many plain ones ----------

  /** `k` plain updates, one every `step` after `t0`. */
  function Ticked(m: Memory, entry: real, book: Option<Book>, t0: int, step: int, k: nat, cfg: Config): Memory {
    if k == 0 then m
    else PlainUpdated(Ticked(m, entry, book, t0, step, k - 1, cfg), entry, book, t0 + k * step, cfg)
  }

  /** What a book leaves behind: seen again, it changes only the clock of the quote and the counter. */
  predicate Settled(m: Memory, entry: real, book: Book) {
    var pct := PnlPct(book.bestBid, entry);
    && m.lowPnlPct <= pct <= m.highPnlPct && (pct > 0.0 ==> m.wasPositive)
    && book.bestBid <= m.highWaterMark && m.highWaterMark > 0.0
    && m.lastBid == book.bestBid && Abs(pct - m.progressPct) <= 1.0
    && (m.initialDepth == 0.0 ==> book.bidDepth + book.askDepth == 0.0)
    && m.confirmCount <= U32_MAX
  }

  lemma UpdateSettles(m: Memory, entry: real, book: Book, now: int, cfg: Config, lastRun: int, tickMs: int)
    requires entry > 0.0 && book.bestBid > 0.0 && m.confirmCount <= U32_MAX
    ensures Settled(Updated(m, entry, Some(book), now, cfg, lastRun, tickMs), entry, book)
  {
    hide PnlPct, Skipped, NearHigh;
  }

  /** The counter and the latch after `n` more ticks on the same near-high book. */
  function Counted(m: Memory, n: nat, near: bool, cfg: Config): Memory {
    if n == 0 then m
    else if !near then m.(confirmCount := 0)
    else
      var count := SaturatingAdd(m.confirmCount, n);
      m.(confirmCount := count, confirmedHigh := if count >= cfg.ratchetConfirmTicks then m.highWaterMark else m.confirmedHigh)
  }

  /** On a settled book an update advances the counter by the ticks it stands for, and stamps the quote. */
  lemma SettledUpdate(m: Memory, entry: real, book: Book, now: int, cfg: Config, lastRun: int, tickMs: int)
    requires entry > 0.0 && book.bestBid > 0.0 && Settled(m, entry, book)
    ensures Updated(m, entry, Some(book), now, cfg, lastRun, tickMs) ==
            Counted(m, Skipped(now, lastRun, tickMs) + 1, NearHigh(book.bestBid, m.highWaterMark, cfg), cfg).(lastQuoteAt := now)
  {
    hide PnlPct, Skipped, NearHigh;
  }

  lemma {:induction false} TickedCounts(m: Memory, entry: real, book: Book, t0: int, step: int, k: nat, cfg: Config)
    requires entry > 0.0 && book.bestBid > 0.0 && Settled(m, entry, book) && k > 0
    ensures Ticked(m, entry, Some(book), t0, step, k, cfg) ==
            Counted(m, k, NearHigh(book.bestBid, m.highWaterMark, cfg), cfg).(lastQuoteAt := t0 + k * step)
  {
    hide PnlPct, NearHigh, Updated;
    var near := NearHigh(book.bestBid, m.highWaterMark, cfg);
    var before := if k == 1 then m else Counted(m, k - 1, near, cfg).(lastQuoteAt := t0 + (k - 1) * step);
    if k == 1 {
      assert Ticked(m, entry, Some(book), t0, step, 0, cfg) == m;
    } else {
      TickedCounts(m, entry, book, t0, step, k - 1, cfg);
    }
    assert Settled(before, entry, book);
    SettledUpdate(before, entry, book, t0 + k * step, cfg, t0 + k * step, REPLAY_TICK_MS);
  }

  lemma AtLeastOne(x: int, step: int)
    requires x >= 1 && step >= 1
    ensures x * step >= step && x * step >= x
  {
  }

  lemma Distribute(a: int, b: int, step: int)
    ensures (a - b) * step == a * step - b * step
  {
  }

  lemma DivMod(n: int, step: int)
    requires step >= 1
    ensures n == n / step * step + n % step && 0 <= n % step < step
  {
  }

  lemma Quotient(n: int, step: int, q: int)
    requires step >= 1 && n == q * step + (step - 1)
    ensures n / step == q
  {
    DivMod(n, step);
    var d := n / step;
    Distribute(d, q, step);
    Distribute(q, d, step);
    if d > q {
      AtLeastOne(d - q, step);
    } else if d < q {
      AtLeastOne(q - d, step);
    }
  }

  lemma SkippedOf(t0: int, step: int, k: nat)
    requires step >= 1 && k >= 1
    ensures Skipped(t0 + k * step, t0, step) == k - 1
  {
    AtLeastOne(k, step);
    Distribute(k, 1, step);
    Quotient(k * step - 1, step, k - 1);
  }

  /** The interval update at the end of `k` steps is the `k` plain updates it stands for, in every
  field, for every state already updated on that book. */
  lemma IntervalIsTicks(m0: Memory, entry: real, book: Option<Book>, t0: int, step: int, k: nat, cfg: Config, lastRun: int, tickMs: int)
    requires step >= 1 && k >= 1 && m0.confirmCount <= U32_MAX
    ensures var m := Updated(m0, entry, book, t0, cfg, lastRun, tickMs);
            Updated(m, entry, book, t0 + k * step, cfg, t0, step) == Ticked(m, entry, book, t0, step, k, cfg)
  {
    hide PnlPct, NearHigh, Updated, Skipped;
    var m := Updated(m0, entry, book, t0, cfg, lastRun, tickMs);
    if Observes(entry, book) {
      UpdateSettles(m0, entry, book.value, t0, cfg, lastRun, tickMs);
      SkippedOf(t0, step, k);
      SettledUpdate(m, entry, book.value, t0 + k * step, cfg, t0, step);
      TickedCounts(m, entry, book.value, t0, step, k, cfg);
    } else {
      NothingObserved(m, entry, book, t0, step, k, cfg);
    }
  }

  lemma {:induction false} NothingObserved(m: Memory, entry: real, book: Option<Book>, t0: int, step: int, k: nat, cfg: Config)
    requires !Observes(entry, book)
    ensures Ticked(m, entry, book, t0, step, k, cfg) == m
    ensures forall now, lastRun, tickMs :: Updated(m, entry, book, now, cfg, lastRun, tickMs) == m
  {
    if k > 0 {
      NothingObserved(m, entry, book, t0, step, k - 1, cfg);
    }
  }

  // ---------- the stop width ----------

  /** How wide the protective stop is with this much time left. */
  function EffectiveStopPct(base: real, timeLeft: int, cfg: Config): real {
    if !cfg.dynamicStop then base
    else
      var start := cfg.stopTightenStartSec;
      var floorT := StopFloorSec(cfg);
      var minPct := Min(base, cfg.stopMinPct);
      if timeLeft >= start then base
      else if timeLeft <= floorT then minPct
      else minPct + (base - minPct) * Fraction(timeLeft - floorT, start - floorT)
  }

  function StopFloorSec(cfg: Config): int {
    var latest := if cfg.stopTightenStartSec - 1 > 1 then cfg.stopTightenStartSec - 1 else 1;
    if cfg.forceExitSec < latest then cfg.forceExitSec else latest
  }

  function Fraction(num: int, den: int): real
    requires den > 0
  {
    num as real / den as real
  }

  lemma FractionBounds(num: int, den: int)
    requires 0 <= num <= den && den > 0
    ensures 0.0 <= Fraction(num, den) <= 1.0
  {
    var d := den as real;
    assert Fraction(num, den) * d == num as real;
  }

  lemma FractionGrows(a: int, b: int, den: int)
    requires a <= b && den > 0
    ensures Fraction(a, den) <= Fraction(b, den)
  {
  }

  lemma Scaled(width: real, f: real, g: real)
    requires width >= 0.0 && 0.0 <= f <= g <= 1.0
    ensures 0.0 <= width * f <= width * g <= width
  {
  }

  lemma WidthBounds(base: real, cfg: Config, t: int)
    ensures Min(base, cfg.stopMinPct) <= EffectiveStopPct(base, t, cfg) <= base
  {
    hide Fraction;
    var start, floorT := cfg.stopTightenStartSec, StopFloorSec(cfg);
    var minPct := Min(base, cfg.stopMinPct);
    if cfg.dynamicStop && floorT < t < start {
      FractionBounds(t - floorT, start - floorT);
      Scaled(base - minPct, Fraction(t - floorT, start - floorT), 1.0);
    }
  }

  /** The width stays between its floor and its base, and never narrows with more time left. */
  lemma StopWidthBoundsAndOrder(base: real, cfg: Config, t: int, u: int)
    requires t <= u
    ensures Min(base, cfg.stopMinPct) <= EffectiveStopPct(base, t, cfg) <= EffectiveStopPct(base, u, cfg) <= base
  {
    hide Fraction;
    WidthBounds(base, cfg, t);
    WidthBounds(base, cfg, u);
    var start, floorT := cfg.stopTightenStartSec, StopFloorSec(cfg);
    var minPct := Min(base, cfg.stopMinPct);
    if cfg.dynamicStop && floorT < t && u < start {
      var f, g := Fraction(t - floorT, start - floorT), Fraction(u - floorT, start - floorT);
      FractionBounds(t - floorT, start - floorT);
      FractionBounds(u - floorT, start - floorT);
      FractionGrows(t - floorT, u - floorT, start - floorT);
      Scaled(base - minPct, f, g);
      assert EffectiveStopPct(base, t, cfg) == minPct + (base - minPct) * f;
      assert EffectiveStopPct(base, u, cfg) == minPct + (base - minPct) * g;
    }
  }

  /** The configuration of a position held to settlement. */
  function HolderView(cfg: Config): Config {
    cfg.(stopLossPct := cfg.holderStopPct, stopMinPct := cfg.holderStopPct, tightStopPct := cfg.holderStopPct)
  }

  function HolderEffectiveStopPct(timeLeft: int, cfg: Config): real {
    EffectiveStopPct(cfg.holderStopPct, timeLeft, HolderView(cfg))
  }

  /** A holder's stop is flat, whichever base the ladder starts from. */
  lemma HolderStopIsFlat(timeLeft: int, cfg: Config)
    ensures HolderEffectiveStopPct(timeLeft, cfg) == cfg.holderStopPct
    ensures EffectiveStopPct(BaseStop(HolderView(cfg)), timeLeft, HolderView(cfg)) == cfg.holderStopPct
  {
    StopWidthBoundsAndOrder(cfg.holderStopPct, HolderView(cfg), timeLeft, timeLeft);
  }

  /** The base width the ladder uses. */
  function BaseStop(cfg: Config): real {
    if cfg.simpleExit then cfg.stopLossPct else if cfg.tightStop then cfg.tightStopPct else cfg.stopLossPct
  }

  // ---------- prices to judge on ----------

  datatype StopSource = FromBid | FromMid | FromAsk | FromLastKnown

  datatype StopReference = StopReference(price: real, source: StopSource, suppressedBid: Option<real>)

  predicate Fresh(m: Memory, now: int, cfg: Config) {
    now - m.lastQuoteAt <= (if cfg.maxLastPriceAgeSec > 1 then cfg.maxLastPriceAgeSec else 1) * 1000
  }

  /** The remembered price, while it is fresh or of unknown age. */
  function LastKnownPrice(fallback: Option<real>, m: Memory, now: int, cfg: Config): Option<real> {
    if fallback.None? || fallback.value <= 0.0 then None
    else if m.lastQuoteAt <= 0 || Fresh(m, now, cfg) then fallback
    else None
  }

  /** What a profit rule may judge on without a bid: the mid, or a price of known age. */
  function ProfitReference(book: Option<Book>, fallback: Option<real>, m: Memory, now: int, cfg: Config): Option<real> {
    if book.Some? && book.value.bestBid > 0.0 then Some(book.value.bestBid)
    else if book.Some? && book.value.mid > 0.0 then Some(book.value.mid)
    else if m.lastQuoteAt <= 0 then None
    else LastKnownPrice(fallback, m, now, cfg)
  }

  function BestLiveAsk(book: Book): Option<real> {
    if book.hasAsks && book.bestAsk > 0.0 then Some(book.bestAsk) else None
  }

  /** The bid sits below the mid by more than the guard allows. */
  predicate Wick(book: Book, cfg: Config) {
    book.mid > 0.0 && (book.mid - book.bestBid) / book.mid > cfg.maxBidWickPct / 100.0
  }

  function StopReferenceOf(book: Option<Book>, fallback: Option<real>, m: Memory, now: int, cfg: Config): Option<StopReference> {
    var known := LastKnownPrice(fallback, m, now, cfg);
    if book.Some? && book.value.bestBid > 0.0 then
      if Wick(book.value, cfg) then Some(StopReference(book.value.mid, FromMid, Some(book.value.bestBid)))
      else Some(StopReference(book.value.bestBid, FromBid, None))
    else if book.Some? && BestLiveAsk(book.value).Some? then
      var ask := BestLiveAsk(book.value).value;
      Some(StopReference(if known.Some? then Min(known.value, ask) else ask, FromAsk, None))
    else if known.Some? then Some(StopReference(known.value, FromLastKnown, None))
    else None
  }

  // ---------- the verdict ----------

  datatype SuppressedStop = SuppressedStop(bid: real, mid: real, pctAtBid: real, pctAtMid: real, stopPct: real)

  datatype StopVerdict = Fire | Suppressed(stop: SuppressedStop) | Nothing

  function StopVerdictOf(entry: real, stopPct: real, reference: Option<StopReference>): StopVerdict {
    if reference.None? then Nothing
    else
      var pct := PnlPct(reference.value.price, entry);
      if pct <= -stopPct then Fire
      else if reference.value.suppressedBid.Some? && PnlPct(reference.value.suppressedBid.value, entry) <= -stopPct then
        var bid := reference.value.suppressedBid.value;
        Suppressed(SuppressedStop(bid, reference.value.price, PnlPct(bid, entry), pct, stopPct))
      else Nothing
  }

  datatype Reason =
    | ForceExit | TakeProfit | StopLoss | TrailingStop | TimeExit | RatchetFloor | BreakevenLock
    | DepthCollapse | StaleProfit | StagnantProfit

  datatype Decision = Decision(reason: Reason, useMaker: bool)

  datatype Verdict = Verdict(decision: Option<Decision>, suppressed: Option<SuppressedStop>, reference: Option<StopReference>)

  function Hold(): Verdict {
    Verdict(None, None, None)
  }

  function Exit(reason: Reason, useMaker: bool, judged: Option<StopReference>): Verdict {
    Verdict(Some(Decision(reason, useMaker)), None, judged)
  }

  datatype Tick = Tick(
    entry: real, book: Option<Book>, fallback: Option<real>, timeLeft: int, holdSec: int,
    memory: Memory, now: int, cfg: Config)

  /** The confirmed highs that move the ratchet's floor, from the highest down, each with its floor. */
  const RATCHET_TABLE: seq<(real, real)> := [
    (100.0, 94.0), (50.0, 44.0), (40.0, 35.0), (30.0, 25.0), (25.0, 20.0), (20.0, 15.0), (15.0, 10.0), (10.0, 6.0),
    (8.0, 4.0), (6.0, 3.0), (5.0, 2.0), (4.0, 1.0), (3.0, 0.0), (2.0, -2.0), (1.0, -4.0)]

  const RATCHET_DEFAULT_FLOOR := -12.0

  /** The floor of the first row whose high is reached. */
  function FloorIn(rows: seq<(real, real)>, high: real): (floor: real)
    ensures (floor == RATCHET_DEFAULT_FLOOR && forall j :: 0 <= j < |rows| ==> high < rows[j].0)
            || exists i :: 0 <= i < |rows| && FirstRow(rows, i, high) && floor == rows[i].1
  {
    if rows == [] then RATCHET_DEFAULT_FLOOR
    else if high >= rows[0].0 then
      assert FirstRow(rows, 0, high);
      rows[0].1
    else
      var floor := FloorIn(rows[1..], high);
      assert forall i :: 0 <= i < |rows| - 1 && FirstRow(rows[1..], i, high) ==> FirstRow(rows, i + 1, high);
      floor
  }

  predicate FirstRow(rows: seq<(real, real)>, i: nat, high: real)
    requires i < |rows|
  {
    high >= rows[i].0 && forall j :: 0 <= j < i ==> high < rows[j].0
  }

  function RatchetFloorPct(high: real): real {
    FloorIn(RATCHET_TABLE, high)
  }

  function ProfitTrailPct(high: real, cfg: Config): real {
    var table :=
      if high >= 50.0 then 15.0 else if high >= 30.0 then 12.0 else if high >= 20.0 then 9.0
      else if high >= 10.0 then 6.0 else if high >= 5.0 then 4.0 else if high >= 3.0 then 3.0 else 2.0;
    if cfg.proportionalTrail && high >= cfg.proportionalTrailMinPct then
      Max(cfg.proportionalMinGivebackPct, Min(table, high * (cfg.proportionalTrailPct / 100.0)))
    else table
  }

  function TimeTrailPct(timeLeft: int): real {
    if timeLeft > 420 then 12.0 else if timeLeft > 180 then 8.0 else 6.0
  }

  predicate TrailHit(t: Tick, pct: real) {
    && t.cfg.trailing && t.memory.highPnlPct >= t.cfg.trailingMinHighPct
    && t.memory.highPnlPct - pct >=
         Max(t.cfg.minTrailPct, Min(ProfitTrailPct(t.memory.highPnlPct, t.cfg), TimeTrailPct(t.timeLeft)))
  }

  /** Division of milliseconds that drops the fraction, towards zero. */
  function WholeSecs(ms: int): int {
    if ms >= 0 then ms / 1000 else -((-ms) / 1000)
  }

  predicate DepthCollapsed(t: Tick, judge: real, pct: real) {
    && t.book.Some? && t.memory.initialDepth > 0.0
    && (t.book.value.bidDepth + t.book.value.askDepth - t.memory.initialDepth) / t.memory.initialDepth * 100.0 <= -t.cfg.depthCollapsePct
    && judge < t.memory.highWaterMark && pct >= 2.0
  }

  /** The profit-side rules of the full ladder, in their order. */
  function ProfitRules(t: Tick, judge: real, pct: real, takerFeePct: real -> real): Option<Decision> {
    var m, cfg := t.memory, t.cfg;
    if cfg.ratchet && pct <= RatchetFloorPct(PnlPct(m.confirmedHigh, t.entry)) then Some(Decision(RatchetFloor, false))
    else if m.highPnlPct >= 3.0 && pct <= Max(0.5, takerFeePct(judge) + 0.2) then Some(Decision(BreakevenLock, false))
    else if TrailHit(t, pct) then Some(Decision(TrailingStop, false))
    else if DepthCollapsed(t, judge, pct) then Some(Decision(DepthCollapse, false))
    else if pct >= cfg.staleProfitPct && WholeSecs(t.now - m.bidSince) >= cfg.staleBidSec then Some(Decision(StaleProfit, true))
    else if pct >= cfg.stagnantProfitPct && pct < cfg.takeProfitPct && WholeSecs(t.now - m.progressAt) >= cfg.stagnantSec then
      Some(Decision(StagnantProfit, true))
    else if t.timeLeft <= cfg.minTimeLeftSec then Some(Decision(TimeExit, cfg.makerForTpOnly))
    else None
  }

  function StopRef(t: Tick): Option<StopReference> {
    StopReferenceOf(t.book, t.fallback, t.memory, t.now, t.cfg)
  }

  function ProfitJudge(t: Tick): Option<real> {
    ProfitReference(t.book, t.fallback, t.memory, t.now, t.cfg)
  }

  function StopPct(t: Tick): real {
    EffectiveStopPct(BaseStop(t.cfg), t.timeLeft, t.cfg)
  }

  function Judged(t: Tick): real {
    if ProfitJudge(t).Some? then PnlPct(ProfitJudge(t).value, t.entry) else 0.0
  }

  predicate TakesProfit(t: Tick) {
    && ProfitJudge(t).Some? && Judged(t) >= t.cfg.takeProfitPct
    && (t.cfg.simpleExit ==> 0.0 < t.cfg.takeProfitPct < 9999.0)
  }

  /** The rules below the protective stop, simple or full. */
  function BelowStop(t: Tick, takerFeePct: real -> real): Option<Decision> {
    if ProfitJudge(t).None? then None
    else if t.cfg.simpleExit then
      if TrailHit(t, Judged(t)) then Some(Decision(TrailingStop, false))
      else if t.timeLeft <= t.cfg.minTimeLeftSec then Some(Decision(TimeExit, false))
      else None
    else ProfitRules(t, ProfitJudge(t).value, Judged(t), takerFeePct)
  }

  /** The ladder past its gates: take profit, then the protective stop, then the rest. */
  function Ladder(t: Tick, takerFeePct: real -> real): Verdict {
    if TakesProfit(t) then Exit(TakeProfit, t.cfg.makerFirst, None)
    else
      match StopVerdictOf(t.entry, StopPct(t), StopRef(t))
      case Fire => Exit(StopLoss, false, StopRef(t))
      case verdict =>
        match BelowStop(t, takerFeePct)
        case Some(d) => Verdict(Some(d), None, None)
        case None => Verdict(None, if verdict.Suppressed? then Some(verdict.stop) else None, StopRef(t))
  }

  function Decide(t: Tick, takerFeePct: real -> real): Verdict {
    if t.entry <= 0.0 then Hold()
    else if t.cfg.forceExitSec > 0 && t.timeLeft <= t.cfg.forceExitSec then
      if ExecutableBid(t.book) > 0.0 then Exit(ForceExit, false, None) else Hold()
    else if AtExpiry(t) then Hold()
    else if ProfitJudge(t).None? && StopRef(t).None? then Hold()
    else if InGrace(t) then Hold()
    else Ladder(t, takerFeePct)
  }

  /** Past expiry, with the forced exit off, the position belongs to settlement. */
  predicate AtExpiry(t: Tick) {
    t.cfg.forceExitSec <= 0 && t.timeLeft <= 0
  }

  predicate InGrace(t: Tick) {
    !t.cfg.simpleExit && t.holdSec < t.cfg.exitGraceSec
  }

  // ---------- what the verdict never does ----------

  predicate BidBreaches(t: Tick) {
    ExecutableBid(t.book) > 0.0 && PnlPct(ExecutableBid(t.book), t.entry) <= -StopPct(t)
  }

  /** No protective stop is swallowed: a live bid through the stop ends in an exit, or in a report
  of that very bid as held back. */
  lemma NoStopSwallowed(t: Tick, takerFeePct: real -> real)
    requires t.entry > 0.0 && !AtExpiry(t) && !InGrace(t) && BidBreaches(t)
    ensures var v := Decide(t, takerFeePct);
            v.decision.Some? || (v.suppressed.Some? && v.suppressed.value.bid == t.book.value.bestBid
                                 && v.suppressed.value.pctAtBid <= -StopPct(t) < v.suppressed.value.pctAtMid)
  {
    hide EffectiveStopPct, Wick, TrailHit, ProfitRules;
  }

  /** The forced exit aside, a stop-loss is decided exactly when the gates are open, the profit
  target is not reached and the reference price breaches; and the verdict then names it. */
  lemma StopLossIffBreached(t: Tick, takerFeePct: real -> real)
    ensures var v := Decide(t, takerFeePct);
            var forced := t.cfg.forceExitSec > 0 && t.timeLeft <= t.cfg.forceExitSec;
            (v.decision.Some? && v.decision.value.reason == StopLoss) <==>
              && t.entry > 0.0 && !forced && !AtExpiry(t) && !InGrace(t) && !TakesProfit(t)
              && StopRef(t).Some? && PnlPct(StopRef(t).value.price, t.entry) <= -StopPct(t)
    ensures var v := Decide(t, takerFeePct);
            v.decision == Some(Decision(StopLoss, false)) ==> v.reference == StopRef(t)
  {
    hide EffectiveStopPct, Wick, TrailHit;
  }

  /** With an ask and no bid, the stop judges on the ask, or on a fresh remembered price below it. */
  lemma AskBoundsTheReference(t: Tick)
    requires ExecutableBid(t.book) <= 0.0 && t.book.Some? && BestLiveAsk(t.book.value).Some?
    ensures StopRef(t).Some? && StopRef(t).value.source == FromAsk && StopRef(t).value.price <= t.book.value.bestAsk
    ensures var known := LastKnownPrice(t.fallback, t.memory, t.now, t.cfg);
            known.Some? ==> StopRef(t).value.price <= known.value
  {
  }

  /** So an ask can only add stops: where the remembered price alone would have fired one, a book with
  an ask and no bid still exits, by that stop unless its mid reaches the profit target. */
  lemma AskNeverHoldsAStopBack(t: Tick, takerFeePct: real -> real)
    requires t.book.Some? && t.book.value.bestBid <= 0.0 && BestLiveAsk(t.book.value).Some?
    requires var v := Decide(t.(book := None), takerFeePct);
             v.decision.Some? && v.decision.value.reason == StopLoss
    ensures var v := Decide(t, takerFeePct);
            v.decision.Some? && (v.decision.value.reason == StopLoss <==> !TakesProfit(t))
    ensures t.book.value.mid <= 0.0 ==> !TakesProfit(t)
  {
    hide EffectiveStopPct, Wick, TrailHit, PnlPct;
    var dark := t.(book := None);
    StopLossIffBreached(dark, takerFeePct);
    StopLossIffBreached(t, takerFeePct);
    AskBoundsTheReference(t);
    PnlOrder(StopRef(t).value.price, StopRef(dark).value.price, t.entry);
  }

  lemma PnlOrder(a: real, b: real, entry: real)
    requires a <= b
    ensures PnlPct(a, entry) <= PnlPct(b, entry)
  {
    if entry > 0.0 {
      Divide(a - entry, b - entry, entry);
    }
  }

  lemma Divide(x: real, y: real, d: real)
    requires x <= y && d > 0.0
    ensures x / d <= y / d
  {
  }

  /** Without a bid or a mid, a remembered price nobody can date takes no profit: only a stop may act. */
  lemma UndatedPriceTakesNoProfit(t: Tick, takerFeePct: real -> real)
    requires (t.book.Some? ==> t.book.value.bestBid <= 0.0 && t.book.value.mid <= 0.0) && t.memory.lastQuoteAt <= 0
    ensures var v := Decide(t, takerFeePct);
            v.decision.Some? ==> v.decision.value.reason == StopLoss
  {
    hide EffectiveStopPct, TrailHit, ProfitRules, PnlPct;
  }
}

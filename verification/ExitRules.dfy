/** The rules of the exit ladder. */
module ExitRules {
  import opened Wrappers
  import opened ExitPolicy

  /* Each rule is stated on its own, in prices, percentages and seconds, and the verdict is the first of
  them that applies. */

  // ---------- percentages as products ----------

  /** The price is at most `pct` percent above the entry. */
  predicate AtMost(price: real, entry: real, pct: real) {
    (price - entry) * 100.0 <= pct * entry
  }

  predicate AtLeast(price: real, entry: real, pct: real) {
    (price - entry) * 100.0 >= pct * entry
  }

  lemma Times(a: real, b: real, e: real)
    requires e > 0.0
    ensures a <= b <==> a * e <= b * e
  {
  }

  lemma PnlIsProduct(price: real, entry: real, pct: real)
    requires entry > 0.0
    ensures PnlPct(price, entry) <= pct <==> AtMost(price, entry, pct)
    ensures PnlPct(price, entry) >= pct <==> AtLeast(price, entry, pct)
  {
    var gain := price - entry;
    assert gain / entry * entry == gain;
    assert PnlPct(price, entry) * entry == gain * 100.0;
    Times(PnlPct(price, entry), pct, entry);
    Times(pct, PnlPct(price, entry), entry);
  }

  // ---------- the prices judged on ----------

  predicate LiveBid(t: Tick) {
    t.book.Some? && t.book.value.bestBid > 0.0
  }

  /** There is a remembered price, of unknown age or young enough. */
  predicate Remembered(t: Tick) {
    && t.fallback.Some? && t.fallback.value > 0.0
    && (t.memory.lastQuoteAt > 0 ==> t.now - t.memory.lastQuoteAt <= 1000
                                     || t.now - t.memory.lastQuoteAt <= 1000 * t.cfg.maxLastPriceAgeSec)
  }

  /** The bid, else a mid, else a remembered price of known age. */
  predicate ProfitPrice(t: Tick, p: real) {
    if LiveBid(t) then p == t.book.value.bestBid
    else if t.book.Some? && t.book.value.mid > 0.0 then p == t.book.value.mid
    else t.memory.lastQuoteAt > 0 && Remembered(t) && p == t.fallback.value
  }

  /** The bid hangs below the mid by more than the guard allows. */
  predicate Dislocated(t: Tick) {
    && LiveBid(t) && t.book.value.mid > 0.0
    && (t.book.value.mid - t.book.value.bestBid) * 100.0 > t.cfg.maxBidWickPct * t.book.value.mid
  }

  /** The bid, or the mid over a dislocated one; else the lower of a live ask and a remembered price. */
  predicate StopPrice(t: Tick, p: real) {
    if LiveBid(t) then p == (if Dislocated(t) then t.book.value.mid else t.book.value.bestBid)
    else
      var asked := t.book.Some? && t.book.value.hasAsks && t.book.value.bestAsk > 0.0;
      && ((asked && p == t.book.value.bestAsk) || (Remembered(t) && p == t.fallback.value))
      && (asked ==> p <= t.book.value.bestAsk) && (Remembered(t) ==> p <= t.fallback.value)
  }

  lemma ProfitPriceIsJudge(t: Tick)
    ensures ProfitJudge(t).Some? <==> exists p :: ProfitPrice(t, p)
    ensures ProfitJudge(t).Some? ==> ProfitPrice(t, ProfitJudge(t).value)
    ensures forall p :: ProfitPrice(t, p) ==> ProfitJudge(t) == Some(p)
  {
    assert ProfitJudge(t).Some? ==> ProfitPrice(t, ProfitJudge(t).value);
  }

  lemma WickIsProduct(mid: real, bid: real, pct: real)
    requires mid > 0.0
    ensures (mid - bid) / mid > pct / 100.0 <==> (mid - bid) * 100.0 > pct * mid
  {
    var x, y := (mid - bid) / mid, pct / 100.0;
    assert x * mid == mid - bid;
    Times(x, y, mid);
    assert y * mid * 100.0 == pct * mid;
  }

  lemma StopPriceIsReference(t: Tick)
    ensures StopRef(t).Some? <==> exists p :: StopPrice(t, p)
    ensures StopRef(t).Some? ==> StopPrice(t, StopRef(t).value.price)
    ensures forall p :: StopPrice(t, p) ==> StopRef(t).Some? && StopRef(t).value.price == p
    ensures StopRef(t).Some? && StopRef(t).value.suppressedBid.Some? <==> Dislocated(t)
    ensures Dislocated(t) ==> StopRef(t).value.suppressedBid == Some(t.book.value.bestBid)
  {
    if LiveBid(t) && t.book.value.mid > 0.0 {
      WickIsProduct(t.book.value.mid, t.book.value.bestBid, t.cfg.maxBidWickPct);
    }
    assert StopRef(t).Some? ==> StopPrice(t, StopRef(t).value.price);
  }

  // ---------- the rules ----------

  predicate Forced(t: Tick) {
    t.cfg.forceExitSec > 0 && t.timeLeft <= t.cfg.forceExitSec
  }

  /** A position the ladder may act on: entered, before its deadline, not left to settlement and out of grace. */
  predicate Open(t: Tick) {
    && t.entry > 0.0 && !Forced(t) && (t.cfg.forceExitSec > 0 || t.timeLeft > 0)
    && (t.cfg.simpleExit || t.holdSec >= t.cfg.exitGraceSec)
  }

  /** So many whole seconds lie in these milliseconds, the fraction dropped towards zero. */
  predicate Lasted(ms: int, secs: int) {
    if secs > 0 then ms >= 1000 * secs else ms > 1000 * (secs - 1)
  }

  /** The price has fallen to the floor the confirmed high has raised. */
  predicate OnFloor(t: Tick, p: real) {
    || ((forall j :: 0 <= j < |RATCHET_TABLE| ==> !AtLeast(t.memory.confirmedHigh, t.entry, RATCHET_TABLE[j].0))
        && AtMost(p, t.entry, RATCHET_DEFAULT_FLOOR))
    || exists i :: 0 <= i < |RATCHET_TABLE| && AtLeast(t.memory.confirmedHigh, t.entry, RATCHET_TABLE[i].0)
                   && (forall j :: 0 <= j < i ==> !AtLeast(t.memory.confirmedHigh, t.entry, RATCHET_TABLE[j].0))
                   && AtMost(p, t.entry, RATCHET_TABLE[i].1)
  }

  /** The price has given back the least trail, and the trail of its profit or of its time. */
  predicate GaveBack(t: Tick, p: real) {
    var high := t.memory.highPnlPct;
    && t.cfg.trailing && high >= t.cfg.trailingMinHighPct
    && AtMost(p, t.entry, high - t.cfg.minTrailPct)
    && (AtMost(p, t.entry, high - ProfitTrailPct(high, t.cfg)) || AtMost(p, t.entry, high - TimeTrailPct(t.timeLeft)))
  }

  /** The depth has fallen by the threshold from what it was first seen to be. */
  predicate Drained(t: Tick) {
    && t.book.Some? && t.memory.initialDepth > 0.0
    && (t.book.value.bidDepth + t.book.value.askDepth - t.memory.initialDepth) * 100.0 <= -t.cfg.depthCollapsePct * t.memory.initialDepth
  }

  /** What rule `r` asks of the price `p` it judges on. */
  predicate Asks(t: Tick, r: Reason, p: real, takerFeePct: real -> real) {
    var cfg, m := t.cfg, t.memory;
    match r
    case ForceExit => Forced(t)
    case TakeProfit => AtLeast(p, t.entry, cfg.takeProfitPct) && (cfg.simpleExit ==> 0.0 < cfg.takeProfitPct < 9999.0)
    case StopLoss => AtMost(p, t.entry, -StopPct(t))
    case RatchetFloor => !cfg.simpleExit && cfg.ratchet && OnFloor(t, p)
    case BreakevenLock =>
      !cfg.simpleExit && m.highPnlPct >= 3.0 && (AtMost(p, t.entry, 0.5) || AtMost(p, t.entry, takerFeePct(p) + 0.2))
    case TrailingStop => GaveBack(t, p)
    case DepthCollapse => !cfg.simpleExit && Drained(t) && p < m.highWaterMark && AtLeast(p, t.entry, 2.0)
    case StaleProfit => !cfg.simpleExit && AtLeast(p, t.entry, cfg.staleProfitPct) && Lasted(t.now - m.bidSince, cfg.staleBidSec)
    case StagnantProfit =>
      && !cfg.simpleExit && AtLeast(p, t.entry, cfg.stagnantProfitPct) && !AtLeast(p, t.entry, cfg.takeProfitPct)
      && Lasted(t.now - m.progressAt, cfg.stagnantSec)
    case TimeExit => t.timeLeft <= cfg.minTimeLeftSec
  }

  /** The price rule `r` judges on: the forced exit asks for a live bid. */
  predicate JudgesOn(t: Tick, r: Reason, p: real) {
    match r
    case ForceExit => LiveBid(t) && p == t.book.value.bestBid
    case StopLoss => StopPrice(t, p)
    case _ => ProfitPrice(t, p)
  }

  /** Rule `r` applies. */
  ghost predicate Wants(t: Tick, r: Reason, takerFeePct: real -> real) {
    (if r == ForceExit then t.entry > 0.0 else Open(t)) && exists p :: JudgesOn(t, r, p) && Asks(t, r, p, takerFeePct)
  }

  /** The order the rules are asked in. */
  function Rank(r: Reason): nat {
    match r
    case ForceExit => 0
    case TakeProfit => 1
    case StopLoss => 2
    case RatchetFloor => 3
    case BreakevenLock => 4
    case TrailingStop => 5
    case DepthCollapse => 6
    case StaleProfit => 7
    case StagnantProfit => 8
    case TimeExit => 9
  }

  function UseMaker(r: Reason, cfg: Config): bool {
    match r
    case TakeProfit => cfg.makerFirst
    case StaleProfit => true
    case StagnantProfit => true
    case TimeExit => !cfg.simpleExit && cfg.makerForTpOnly
    case _ => false
  }

  /** Rule `r` applies and no rule before it does. */
  ghost predicate First(t: Tick, r: Reason, takerFeePct: real -> real) {
    Wants(t, r, takerFeePct) && forall q: Reason :: Rank(q) < Rank(r) ==> !Wants(t, q, takerFeePct)
  }

  // ---------- the rules in the ladder ----------

  lemma LastedIsWholeSecs(ms: int, secs: int)
    ensures WholeSecs(ms) >= secs <==> Lasted(ms, secs)
  {
  }

  lemma FloorIsRow(t: Tick, p: real)
    requires t.entry > 0.0
    ensures PnlPct(p, t.entry) <= RatchetFloorPct(PnlPct(t.memory.confirmedHigh, t.entry)) <==> OnFloor(t, p)
  {
    hide PnlPct, AtMost, AtLeast, FloorIn, RATCHET_TABLE;
    var high := PnlPct(t.memory.confirmedHigh, t.entry);
    var floor := RatchetFloorPct(high);
    forall j | 0 <= j < |RATCHET_TABLE|
      ensures AtLeast(t.memory.confirmedHigh, t.entry, RATCHET_TABLE[j].0) <==> high >= RATCHET_TABLE[j].0
    {
      PnlIsProduct(t.memory.confirmedHigh, t.entry, RATCHET_TABLE[j].0);
    }
    PnlIsProduct(p, t.entry, floor);
    FloorOfRow(high, floor);
  }

  /** The floor is that of the only first row. */
  lemma FloorOfRow(high: real, floor: real)
    requires floor == FloorIn(RATCHET_TABLE, high)
    ensures (forall j :: 0 <= j < |RATCHET_TABLE| ==> high < RATCHET_TABLE[j].0) ==> floor == RATCHET_DEFAULT_FLOOR
    ensures forall i :: 0 <= i < |RATCHET_TABLE| && FirstRow(RATCHET_TABLE, i, high) ==> floor == RATCHET_TABLE[i].1
  {
    hide FloorIn, RATCHET_TABLE;
  }

  lemma GaveBackIsTrailHit(t: Tick, p: real)
    requires t.entry > 0.0
    ensures TrailHit(t, PnlPct(p, t.entry)) <==> GaveBack(t, p)
  {
    hide PnlPct, AtMost, ProfitTrailPct, TimeTrailPct;
    var high := t.memory.highPnlPct;
    PnlIsProduct(p, t.entry, high - t.cfg.minTrailPct);
    PnlIsProduct(p, t.entry, high - ProfitTrailPct(high, t.cfg));
    PnlIsProduct(p, t.entry, high - TimeTrailPct(t.timeLeft));
  }

  lemma DrainedIsDepth(t: Tick, p: real)
    requires t.entry > 0.0
    ensures DepthCollapsed(t, p, PnlPct(p, t.entry)) <==> Drained(t) && p < t.memory.highWaterMark && AtLeast(p, t.entry, 2.0)
  {
    PnlIsProduct(p, t.entry, 2.0);
    if t.book.Some? && t.memory.initialDepth > 0.0 {
      PnlIsProduct(t.book.value.bidDepth + t.book.value.askDepth, t.memory.initialDepth, -t.cfg.depthCollapsePct);
    }
  }

  /** The profit-side rules in products. */
  predicate AsksProfit(t: Tick, r: Reason, p: real, pct: real, takerFeePct: real -> real) {
    var cfg, m := t.cfg, t.memory;
    match r
    case RatchetFloor => cfg.ratchet && pct <= RatchetFloorPct(PnlPct(m.confirmedHigh, t.entry))
    case BreakevenLock => m.highPnlPct >= 3.0 && pct <= Max(0.5, takerFeePct(p) + 0.2)
    case TrailingStop => TrailHit(t, pct)
    case DepthCollapse => DepthCollapsed(t, p, pct)
    case StaleProfit => pct >= cfg.staleProfitPct && WholeSecs(t.now - m.bidSince) >= cfg.staleBidSec
    case StagnantProfit => pct >= cfg.stagnantProfitPct && pct < cfg.takeProfitPct && WholeSecs(t.now - m.progressAt) >= cfg.stagnantSec
    case TakeProfit => pct >= cfg.takeProfitPct
    case _ => true
  }

  lemma AsksIsPct(t: Tick, r: Reason, p: real, takerFeePct: real -> real)
    requires t.entry > 0.0
    ensures var asks, full := Asks(t, r, p, takerFeePct), AsksProfit(t, r, p, PnlPct(p, t.entry), takerFeePct);
            match r
            case ForceExit => true
            case StopLoss => asks <==> PnlPct(p, t.entry) <= -StopPct(t)
            case TimeExit => asks <==> t.timeLeft <= t.cfg.minTimeLeftSec
            case TakeProfit => asks <==> full && (t.cfg.simpleExit ==> 0.0 < t.cfg.takeProfitPct < 9999.0)
            case TrailingStop => asks <==> full
            case _ => asks <==> !t.cfg.simpleExit && full
  {
    hide PnlPct, AtMost, AtLeast, OnFloor, GaveBack, Drained, TrailHit, DepthCollapsed, Lasted, WholeSecs, RatchetFloorPct, StopPct;
    var cfg, m := t.cfg, t.memory;
    match r {
      case TakeProfit => PnlIsProduct(p, t.entry, cfg.takeProfitPct);
      case StopLoss => PnlIsProduct(p, t.entry, -StopPct(t));
      case RatchetFloor => FloorIsRow(t, p);
      case BreakevenLock =>
        PnlIsProduct(p, t.entry, 0.5);
        PnlIsProduct(p, t.entry, takerFeePct(p) + 0.2);
      case TrailingStop => GaveBackIsTrailHit(t, p);
      case DepthCollapse => DrainedIsDepth(t, p);
      case StaleProfit =>
        PnlIsProduct(p, t.entry, cfg.staleProfitPct);
        LastedIsWholeSecs(t.now - m.bidSince, cfg.staleBidSec);
      case StagnantProfit =>
        PnlIsProduct(p, t.entry, cfg.stagnantProfitPct);
        PnlIsProduct(p, t.entry, cfg.takeProfitPct);
        LastedIsWholeSecs(t.now - m.progressAt, cfg.stagnantSec);
      case _ =>
    }
  }

  /** The rules that judge on a profit price apply exactly when there is one and they ask for it. */
  lemma WantsOnJudge(t: Tick, r: Reason, takerFeePct: real -> real)
    requires r != ForceExit && r != StopLoss
    ensures Wants(t, r, takerFeePct) <==> Open(t) && ProfitJudge(t).Some? && Asks(t, r, ProfitJudge(t).value, takerFeePct)
  {
    hide ProfitPrice, Asks, ProfitJudge;
    ProfitPriceIsJudge(t);
    if ProfitJudge(t).Some? {
      assert JudgesOn(t, r, ProfitJudge(t).value);
    }
    if p :| JudgesOn(t, r, p) && Asks(t, r, p, takerFeePct) {
      assert ProfitPrice(t, p);
    }
  }

  lemma WantsStop(t: Tick, takerFeePct: real -> real)
    ensures Wants(t, StopLoss, takerFeePct) <==>
            Open(t) && StopRef(t).Some? && PnlPct(StopRef(t).value.price, t.entry) <= -StopPct(t)
  {
    hide StopPrice, StopRef, PnlPct, StopPct, AtMost;
    StopPriceIsReference(t);
    if Open(t) && StopRef(t).Some? {
      var p := StopRef(t).value.price;
      AsksIsPct(t, StopLoss, p, takerFeePct);
      assert JudgesOn(t, StopLoss, p);
    }
    if p :| JudgesOn(t, StopLoss, p) && Asks(t, StopLoss, p, takerFeePct) {
      assert StopPrice(t, p);
      if Open(t) {
        AsksIsPct(t, StopLoss, p, takerFeePct);
      }
    }
  }

  lemma WantsForced(t: Tick, takerFeePct: real -> real)
    ensures Wants(t, ForceExit, takerFeePct) <==> t.entry > 0.0 && Forced(t) && LiveBid(t)
  {
    if LiveBid(t) {
      assert JudgesOn(t, ForceExit, t.book.value.bestBid);
    }
  }

  // ---------- the verdict is the first rule ----------

  ghost function FirstRule(t: Tick, takerFeePct: real -> real): Option<Reason> {
    if Wants(t, ForceExit, takerFeePct) then Some(ForceExit)
    else if Wants(t, TakeProfit, takerFeePct) then Some(TakeProfit)
    else if Wants(t, StopLoss, takerFeePct) then Some(StopLoss)
    else if Wants(t, RatchetFloor, takerFeePct) then Some(RatchetFloor)
    else if Wants(t, BreakevenLock, takerFeePct) then Some(BreakevenLock)
    else if Wants(t, TrailingStop, takerFeePct) then Some(TrailingStop)
    else if Wants(t, DepthCollapse, takerFeePct) then Some(DepthCollapse)
    else if Wants(t, StaleProfit, takerFeePct) then Some(StaleProfit)
    else if Wants(t, StagnantProfit, takerFeePct) then Some(StagnantProfit)
    else if Wants(t, TimeExit, takerFeePct) then Some(TimeExit)
    else None
  }

  lemma FirstRuleIsFirst(t: Tick, r: Reason, takerFeePct: real -> real)
    ensures FirstRule(t, takerFeePct) == Some(r) <==> First(t, r, takerFeePct)
    ensures Wants(t, r, takerFeePct) ==> FirstRule(t, takerFeePct).Some? && Rank(FirstRule(t, takerFeePct).value) <= Rank(r)
  {
    hide Wants;
    if First(t, r, takerFeePct) {
      forall q: Reason | Rank(q) < Rank(r) ensures !Wants(t, q, takerFeePct) {
      }
    }
  }

  /** A rule that judges on the profit price, in the percentages of the ladder. */
  lemma WantsIsPct(t: Tick, r: Reason, takerFeePct: real -> real)
    requires r != ForceExit && r != StopLoss && Open(t)
    ensures ProfitJudge(t).None? ==> !Wants(t, r, takerFeePct)
    ensures ProfitJudge(t).Some? ==>
              (Wants(t, r, takerFeePct) <==>
                 if r == TimeExit then t.timeLeft <= t.cfg.minTimeLeftSec
                 else AsksProfit(t, r, ProfitJudge(t).value, Judged(t), takerFeePct)
                      && (if r == TakeProfit then t.cfg.simpleExit ==> 0.0 < t.cfg.takeProfitPct < 9999.0
                          else r == TrailingStop || !t.cfg.simpleExit))
  {
    hide Asks, AsksProfit, ProfitJudge, PnlPct, Wants;
    WantsOnJudge(t, r, takerFeePct);
    if ProfitJudge(t).Some? {
      AsksIsPct(t, r, ProfitJudge(t).value, takerFeePct);
    }
  }

  lemma BelowStopIsFirst(t: Tick, takerFeePct: real -> real)
    requires Open(t)
    requires !Wants(t, ForceExit, takerFeePct) && !Wants(t, TakeProfit, takerFeePct) && !Wants(t, StopLoss, takerFeePct)
    ensures var r := FirstRule(t, takerFeePct);
            BelowStop(t, takerFeePct) == if r.None? then None else Some(Decision(r.value, UseMaker(r.value, t.cfg)))
  {
    hide Wants, Open, ProfitJudge, TrailHit, DepthCollapsed, PnlPct, RatchetFloorPct, WholeSecs, Max;
    WantsIsPct(t, RatchetFloor, takerFeePct);
    WantsIsPct(t, BreakevenLock, takerFeePct);
    WantsIsPct(t, TrailingStop, takerFeePct);
    WantsIsPct(t, DepthCollapse, takerFeePct);
    WantsIsPct(t, StaleProfit, takerFeePct);
    WantsIsPct(t, StagnantProfit, takerFeePct);
    WantsIsPct(t, TimeExit, takerFeePct);
  }

  lemma ClosedWantsNothing(t: Tick, r: Reason, takerFeePct: real -> real)
    requires !Open(t) && r != ForceExit
    ensures !Wants(t, r, takerFeePct)
  {
  }

  lemma LadderIsFirst(t: Tick, takerFeePct: real -> real)
    requires Open(t)
    ensures var r := FirstRule(t, takerFeePct);
            Ladder(t, takerFeePct).decision == if r.None? then None else Some(Decision(r.value, UseMaker(r.value, t.cfg)))
  {
    hide Wants, ProfitJudge, StopRef, PnlPct, StopPct, BelowStop;
    WantsForced(t, takerFeePct);
    WantsStop(t, takerFeePct);
    WantsIsPct(t, TakeProfit, takerFeePct);
    if !TakesProfit(t) && !StopVerdictOf(t.entry, StopPct(t), StopRef(t)).Fire? {
      BelowStopIsFirst(t, takerFeePct);
    }
  }

  lemma DecideIsFirstRule(t: Tick, takerFeePct: real -> real)
    ensures var r := FirstRule(t, takerFeePct);
            Decide(t, takerFeePct).decision == if r.None? then None else Some(Decision(r.value, UseMaker(r.value, t.cfg)))
  {
    hide Wants, Ladder, ProfitJudge, StopRef;
    WantsForced(t, takerFeePct);
    if Open(t) {
      LadderIsFirst(t, takerFeePct);
      if ProfitJudge(t).None? && StopRef(t).None? {
        NothingToJudge(t, takerFeePct);
      }
    } else {
      forall r | r != ForceExit ensures !Wants(t, r, takerFeePct) {
        ClosedWantsNothing(t, r, takerFeePct);
      }
    }
  }

  lemma NothingToJudge(t: Tick, takerFeePct: real -> real)
    requires Open(t) && ProfitJudge(t).None? && StopRef(t).None?
    ensures Ladder(t, takerFeePct).decision == None
  {
  }

  /** The whole ladder: it decides for a rule exactly when that rule applies and none before it does, and
  takes the maker side where that rule does. */
  lemma VerdictIsFirstRule(t: Tick, r: Reason, takerFeePct: real -> real)
    ensures var d := Decide(t, takerFeePct).decision;
            && (d.Some? && d.value.reason == r <==> First(t, r, takerFeePct))
            && (d.Some? && d.value.reason == r ==> d.value.useMaker == UseMaker(r, t.cfg))
  {
    hide Decide, First, FirstRule;
    DecideIsFirstRule(t, takerFeePct);
    FirstRuleIsFirst(t, r, takerFeePct);
  }

  /** A rule that applies ends in an exit, for it or for one before it. */
  lemma WantedIsDecided(t: Tick, r: Reason, takerFeePct: real -> real)
    requires Wants(t, r, takerFeePct)
    ensures var d := Decide(t, takerFeePct).decision; d.Some? && Rank(d.value.reason) <= Rank(r)
  {
    hide Decide, Wants, FirstRule;
    DecideIsFirstRule(t, takerFeePct);
    FirstRuleIsFirst(t, r, takerFeePct);
  }

  /** Past its gates and with a price to judge a profit on, a position is not held beyond its last seconds,
  on or below the floor its confirmed high has raised, or once it has given back its trail. */
  lemma NotHeldTooLong(t: Tick, p: real, takerFeePct: real -> real)
    requires Open(t) && ProfitPrice(t, p)
    requires t.timeLeft <= t.cfg.minTimeLeftSec || (!t.cfg.simpleExit && t.cfg.ratchet && OnFloor(t, p)) || GaveBack(t, p)
    ensures Decide(t, takerFeePct).decision.Some?
  {
    hide Decide, OnFloor, GaveBack, ProfitPrice;
    var r := if t.timeLeft <= t.cfg.minTimeLeftSec then TimeExit else if GaveBack(t, p) then TrailingStop else RatchetFloor;
    assert JudgesOn(t, r, p) && Asks(t, r, p, takerFeePct);
    WantedIsDecided(t, r, takerFeePct);
  }

  /** A held-back stop is reported exactly when nothing is decided, the bid is dislocated, and it breaches the
  stop while the mid does not. */
  lemma HeldBackIffMidDisagrees(t: Tick, takerFeePct: real -> real)
    ensures var v := Decide(t, takerFeePct);
            v.suppressed.Some? <==>
              && Open(t) && v.decision.None? && Dislocated(t)
              && AtMost(t.book.value.bestBid, t.entry, -StopPct(t)) && !AtMost(t.book.value.mid, t.entry, -StopPct(t))
  {
    hide PnlPct, StopPct, ProfitJudge, StopRef, AtMost, BelowStop;
    StopPriceIsReference(t);
    if t.entry > 0.0 && LiveBid(t) && Dislocated(t) {
      PnlIsProduct(t.book.value.bestBid, t.entry, -StopPct(t));
      PnlIsProduct(t.book.value.mid, t.entry, -StopPct(t));
      DislocatedJudgesMid(t);
    }
  }

  lemma DislocatedJudgesMid(t: Tick)
    requires Dislocated(t)
    ensures StopPrice(t, t.book.value.mid)
  {
  }

  // ---------- how the floor, the trail and the stop width move ----------

  /** Higher rows first, each with a higher floor, all above the default. */
  predicate Descends(rows: seq<(real, real)>) {
    && (forall i, j :: 0 <= i < j < |rows| ==> rows[i].0 > rows[j].0 && rows[i].1 > rows[j].1)
    && (forall i :: 0 <= i < |rows| ==> RATCHET_DEFAULT_FLOOR < rows[i].1 < rows[i].0)
  }

  lemma {:induction false} FloorInRises(rows: seq<(real, real)>, a: real, b: real)
    requires Descends(rows) && a <= b
    ensures FloorIn(rows, a) <= FloorIn(rows, b)
    decreases |rows|
  {
    if rows != [] {
      FloorInRises(rows[1..], a, b);
      assert b >= rows[0].0 > a ==> FloorIn(rows[1..], a) <= rows[0].1;
    }
  }

  lemma {:induction false} FloorBelowHigh(rows: seq<(real, real)>, high: real)
    requires Descends(rows)
    ensures FloorIn(rows, high) < high || FloorIn(rows, high) == RATCHET_DEFAULT_FLOOR
    decreases |rows|
  {
    if rows != [] {
      FloorBelowHigh(rows[1..], high);
    }
  }

  /** Rows that descend from each to the next descend altogether. */
  lemma {:induction false} StepsDescend(rows: seq<(real, real)>)
    requires forall i :: 0 <= i < |rows| ==> RATCHET_DEFAULT_FLOOR < rows[i].1 < rows[i].0
    requires forall i :: 1 <= i < |rows| ==> rows[i - 1].0 > rows[i].0 && rows[i - 1].1 > rows[i].1
    ensures Descends(rows)
    decreases |rows|
  {
    if |rows| > 1 {
      var rest := rows[1..];
      forall i | 1 <= i < |rest| ensures rest[i - 1].0 > rest[i].0 && rest[i - 1].1 > rest[i].1 {
        assert rest[i - 1] == rows[i + 1 - 1] && rest[i] == rows[i + 1];
      }
      StepsDescend(rest);
      forall i, j | 0 <= i < j < |rows| ensures rows[i].0 > rows[j].0 && rows[i].1 > rows[j].1 {
        assert rows[j] == rest[j - 1] && (i > 0 ==> rows[i] == rest[i - 1]);
        assert rest[0] == rows[1] && rows[1 - 1].0 > rows[1].0;
      }
    }
  }

  lemma TableDescends()
    ensures Descends(RATCHET_TABLE)
  {
    hide Descends;
    StepsDescend(RATCHET_TABLE);
  }

  /** The floor never falls as the confirmed high rises, and stays below the high that raised it. */
  lemma RatchetFloorRises(a: real, b: real)
    requires a <= b
    ensures RatchetFloorPct(a) <= RatchetFloorPct(b)
    ensures RatchetFloorPct(b) < b || RatchetFloorPct(b) == RATCHET_DEFAULT_FLOOR
  {
    hide RATCHET_TABLE, Descends;
    TableDescends();
    FloorInRises(RATCHET_TABLE, a, b);
    FloorBelowHigh(RATCHET_TABLE, b);
  }

  /** The stop is at its base until it starts to tighten, at its least from the forced exit on, or from the
  second before it starts if that is earlier, and between the two its width falls in proportion to time. */
  lemma StopTightensLinearly(base: real, timeLeft: int, cfg: Config)
    ensures var width := EffectiveStopPct(base, timeLeft, cfg);
            var least := if base <= cfg.stopMinPct then base else cfg.stopMinPct;
            var start := cfg.stopTightenStartSec;
            && (!cfg.dynamicStop || timeLeft >= start ==> width == base)
            && (cfg.dynamicStop && timeLeft < start ==>
                  && (timeLeft <= cfg.forceExitSec && (timeLeft <= start - 1 || timeLeft <= 1) ==> width == least)
                  && (cfg.forceExitSec < timeLeft && cfg.forceExitSec <= start - 1 ==>
                        (width - least) * ((start - cfg.forceExitSec) as real) == (base - least) * ((timeLeft - cfg.forceExitSec) as real)))
  {
  }

  /** The trail of each profit, from the highest down; under the last row it is 2. */
  const TRAIL_TABLE: seq<(real, real)> := [(50.0, 15.0), (30.0, 12.0), (20.0, 9.0), (10.0, 6.0), (5.0, 4.0), (3.0, 3.0)]

  ghost predicate TrailRow(high: real, trail: real) {
    || (trail == 2.0 && forall j :: 0 <= j < |TRAIL_TABLE| ==> high < TRAIL_TABLE[j].0)
    || exists i :: 0 <= i < |TRAIL_TABLE| && FirstRow(TRAIL_TABLE, i, high) && trail == TRAIL_TABLE[i].1
  }

  /** The trail of a profit is its row, or, where the trail is proportional, the lesser of that and the share of
  the high, but no less than the least giveback. */
  lemma TrailIsRow(high: real, cfg: Config) returns (row: real)
    ensures TrailRow(high, row)
    ensures var trail, share := ProfitTrailPct(high, cfg), high * cfg.proportionalTrailPct;
            if !cfg.proportionalTrail || high < cfg.proportionalTrailMinPct then trail == row
            else
              && trail >= cfg.proportionalMinGivebackPct
              && (trail == cfg.proportionalMinGivebackPct || trail == row || trail * 100.0 == share)
              && (trail > cfg.proportionalMinGivebackPct ==> trail <= row && trail * 100.0 <= share)
  {
    row := ProfitTrailPct(high, cfg.(proportionalTrail := false));
    assert TrailRow(high, row) by {
      var i := if high >= 50.0 then 0 else if high >= 30.0 then 1 else if high >= 20.0 then 2
               else if high >= 10.0 then 3 else if high >= 5.0 then 4 else if high >= 3.0 then 5 else 6;
      if i < 6 {
        assert FirstRow(TRAIL_TABLE, i, high) && row == TRAIL_TABLE[i].1;
      }
    }
    ShareIsProduct(high, cfg.proportionalTrailPct);
  }

  lemma ShareIsProduct(high: real, pct: real)
    ensures high * (pct / 100.0) * 100.0 == high * pct
  {
    assert pct / 100.0 * 100.0 == pct;
  }

  /** It never narrows as the high rises, nor with more time left. */
  lemma TrailWidens(a: real, b: real, s: int, u: int, cfg: Config)
    requires a <= b && s <= u && !cfg.proportionalTrail
    ensures ProfitTrailPct(a, cfg) <= ProfitTrailPct(b, cfg) && TimeTrailPct(s) <= TimeTrailPct(u)
  {
  }
}

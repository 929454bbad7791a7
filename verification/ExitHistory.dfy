/** A position's memory of its books. */
module ExitHistory {
  import opened Wrappers
  import opened ExitPolicy

  /* A position looks at a book with a bid on every tick.  Its memory is stated here from the bids it has
  seen: the high is the largest, and a high is confirmed once enough looks in a row have stayed near it. */

  datatype Look = Look(book: Book, at: int)

  /** The memory after these looks, one plain update each. */
  function After(m: Memory, entry: real, looks: seq<Look>, cfg: Config): Memory {
    if looks == [] then m
    else
      var last := looks[|looks| - 1];
      PlainUpdated(After(m, entry, looks[..|looks| - 1], cfg), entry, Some(last.book), last.at, cfg)
  }

  predicate Bids(looks: seq<Look>) {
    forall i :: 0 <= i < |looks| ==> looks[i].book.bestBid > 0.0
  }

  function Bid(looks: seq<Look>, i: nat): real
    requires i < |looks|
  {
    looks[i].book.bestBid
  }

  /** `x` is the largest of a first value and the bids of the first `n` looks. */
  predicate Highest(first: real, looks: seq<Look>, n: nat, x: real)
    requires n <= |looks|
  {
    && first <= x && (forall i :: 0 <= i < n ==> Bid(looks, i) <= x)
    && (x == first || exists i :: 0 <= i < n && Bid(looks, i) == x)
  }

  lemma OneLook(m: Memory, entry: real, looks: seq<Look>, cfg: Config, n: nat)
    requires n < |looks|
    ensures After(m, entry, looks[..n + 1], cfg) ==
            PlainUpdated(After(m, entry, looks[..n], cfg), entry, Some(looks[n].book), looks[n].at, cfg)
  {
    assert looks[..n + 1][..n] == looks[..n];
  }

  lemma NoLook(m: Memory, entry: real, looks: seq<Look>, cfg: Config)
    ensures After(m, entry, looks[..0], cfg) == m
  {
  }

  /** The high-water mark is the highest bid seen. */
  lemma {:induction false} HighIsHighestBid(m: Memory, entry: real, looks: seq<Look>, cfg: Config, n: nat)
    requires entry > 0.0 && Bids(looks) && n <= |looks|
    ensures Highest(m.highWaterMark, looks, n, After(m, entry, looks[..n], cfg).highWaterMark)
    decreases n
  {
    hide After, PnlPct, NearHigh;
    if n == 0 {
      NoLook(m, entry, looks, cfg);
    } else {
      HighIsHighestBid(m, entry, looks, cfg, n - 1);
      OneLook(m, entry, looks, cfg, n - 1);
      assert Bid(looks, n - 1) == looks[n - 1].book.bestBid;
    }
  }

  // ---------- confirming the high ----------

  /** Look `i` sets a new high. */
  ghost predicate Raises(m: Memory, looks: seq<Look>, i: nat)
    requires i < |looks|
  {
    Bid(looks, i) > m.highWaterMark && forall j :: 0 <= j < i ==> Bid(looks, i) > Bid(looks, j)
  }

  /** Look `i` sets none, and its bid is within the tolerance of the high so far. */
  ghost predicate StaysNear(m: Memory, looks: seq<Look>, i: nat, cfg: Config)
    requires i < |looks|
  {
    !Raises(m, looks, i) &&
    forall h :: Highest(m.highWaterMark, looks, i, h) ==> h > 0.0 && (h - Bid(looks, i)) * 100.0 < cfg.ratchetTolerancePct * h
  }

  ghost predicate NearSince(m: Memory, looks: seq<Look>, s: nat, n: nat, cfg: Config)
    requires n <= |looks|
  {
    forall i :: s <= i < n ==> StaysNear(m, looks, i, cfg)
  }

  lemma OneHighest(first: real, looks: seq<Look>, n: nat, x: real, y: real)
    requires n <= |looks| && Highest(first, looks, n, x) && Highest(first, looks, n, y)
    ensures x == y
  {
  }

  lemma NearIsProduct(val: real, high: real, pct: real)
    requires high > 0.0 && val <= high
    ensures Abs(val - high) / high * 100.0 < pct <==> (high - val) * 100.0 < pct * high
  {
    var x := (high - val) / high;
    assert x * high == high - val;
    assert Abs(val - high) / high == x;
    Scale(x * 100.0, pct, high);
  }

  lemma Scale(a: real, b: real, d: real)
    requires d > 0.0
    ensures a < b <==> a * d < b * d
  {
  }

  /** What the update takes a look for. */
  lemma LookIsTaken(m: Memory, entry: real, looks: seq<Look>, cfg: Config, i: nat)
    requires entry > 0.0 && Bids(looks) && i < |looks|
    ensures var high := After(m, entry, looks[..i], cfg).highWaterMark;
            && (Raises(m, looks, i) <==> Bid(looks, i) > high)
            && (StaysNear(m, looks, i, cfg) <==> Bid(looks, i) <= high && NearHigh(Bid(looks, i), high, cfg))
  {
    hide After, PnlPct;
    var high := After(m, entry, looks[..i], cfg).highWaterMark;
    HighIsHighestBid(m, entry, looks, cfg, i);
    if Bid(looks, i) <= high && high > 0.0 {
      NearIsProduct(Bid(looks, i), high, cfg.ratchetTolerancePct);
    }
    forall h | Highest(m.highWaterMark, looks, i, h) ensures h == high {
      OneHighest(m.highWaterMark, looks, i, h, high);
    }
  }

  function AtMostU32(n: nat): nat {
    if n > U32_MAX then U32_MAX else n
  }

  /** The counter and the confirmed high across one look. */
  lemma CountNext(m: Memory, entry: real, looks: seq<Look>, cfg: Config, i: nat)
    requires entry > 0.0 && Bids(looks) && i < |looks|
    ensures var before, after := After(m, entry, looks[..i], cfg), After(m, entry, looks[..i + 1], cfg);
            && after.confirmCount == (if Raises(m, looks, i) then 1
                                      else if StaysNear(m, looks, i, cfg) then AtMostU32(before.confirmCount + 1) else 0)
            && after.confirmedHigh == if StaysNear(m, looks, i, cfg) && after.confirmCount >= cfg.ratchetConfirmTicks
                                      then before.highWaterMark else before.confirmedHigh
    ensures !(Raises(m, looks, i) && StaysNear(m, looks, i, cfg))
  {
    hide After, PnlPct, NearHigh, Raises, StaysNear;
    OneLook(m, entry, looks, cfg, i);
    LookIsTaken(m, entry, looks, cfg, i);
  }

  /** The counter is the number of looks in a row that stayed near the high, on top of one for the look that
  set the high, of nothing after a look away from it, and of the count there was when there is neither. */
  lemma {:induction false} CountIsLooksNear(m: Memory, entry: real, looks: seq<Look>, cfg: Config, n: nat, s: nat)
    requires entry > 0.0 && Bids(looks) && s <= n <= |looks| && m.confirmCount <= U32_MAX
    requires NearSince(m, looks, s, n, cfg) && (s > 0 ==> !StaysNear(m, looks, s - 1, cfg))
    ensures After(m, entry, looks[..n], cfg).confirmCount ==
            AtMostU32(n - s + if s == 0 then m.confirmCount else if Raises(m, looks, s - 1) then 1 else 0)
    decreases n
  {
    hide After, Raises, StaysNear;
    if n == 0 {
      NoLook(m, entry, looks, cfg);
    } else {
      CountNext(m, entry, looks, cfg, n - 1);
      if s < n {
        assert StaysNear(m, looks, n - 1, cfg);
        CountIsLooksNear(m, entry, looks, cfg, n - 1, s);
      }
    }
  }

  /** Look `i` confirms the high: it stays near it, and with it enough looks in a row have. */
  ghost predicate Confirms(m: Memory, entry: real, looks: seq<Look>, i: nat, cfg: Config)
    requires i < |looks|
  {
    StaysNear(m, looks, i, cfg) && After(m, entry, looks[..i + 1], cfg).confirmCount >= cfg.ratchetConfirmTicks
  }

  ghost predicate LastConfirms(m: Memory, entry: real, looks: seq<Look>, i: nat, n: nat, cfg: Config)
    requires i < n <= |looks|
  {
    Confirms(m, entry, looks, i, cfg) && forall j :: i < j < n ==> !Confirms(m, entry, looks, j, cfg)
  }

  /** The confirmed high is the high at the last look that confirmed one, or what it was. */
  lemma {:induction false} ConfirmedIsLastConfirmed(m: Memory, entry: real, looks: seq<Look>, cfg: Config, n: nat)
    requires entry > 0.0 && Bids(looks) && n <= |looks|
    ensures var confirmed := After(m, entry, looks[..n], cfg).confirmedHigh;
            && ((forall i :: 0 <= i < n ==> !Confirms(m, entry, looks, i, cfg)) ==> confirmed == m.confirmedHigh)
            && (forall i :: 0 <= i < n && LastConfirms(m, entry, looks, i, n, cfg) ==> Highest(m.highWaterMark, looks, i, confirmed))
    decreases n
  {
    hide After, Raises, StaysNear, Highest;
    if n == 0 {
      NoLook(m, entry, looks, cfg);
    } else {
      ConfirmedIsLastConfirmed(m, entry, looks, cfg, n - 1);
      CountNext(m, entry, looks, cfg, n - 1);
      HighIsHighestBid(m, entry, looks, cfg, n - 1);
      if !Confirms(m, entry, looks, n - 1, cfg) {
        forall i | 0 <= i < n && LastConfirms(m, entry, looks, i, n, cfg) ensures LastConfirms(m, entry, looks, i, n - 1, cfg) {
        }
      }
    }
  }

  // ---------- the rest of the memory ----------

  /** The profit extremes are those of the bids seen, from zero at the entry; the quote is as old as the last
  look; and the bid has stood since the look that changed it. */
  lemma {:induction false} ExtremesOfBids(m: Memory, entry: real, looks: seq<Look>, cfg: Config, n: nat)
    requires entry > 0.0 && Bids(looks) && n <= |looks|
    ensures var e := After(m, entry, looks[..n], cfg);
            && m.highPnlPct <= e.highPnlPct && m.lowPnlPct >= e.lowPnlPct
            && (forall i :: 0 <= i < n ==> e.lowPnlPct <= PnlPct(Bid(looks, i), entry) <= e.highPnlPct)
            && (e.highPnlPct == m.highPnlPct || exists i :: 0 <= i < n && e.highPnlPct == PnlPct(Bid(looks, i), entry))
            && (e.lowPnlPct == m.lowPnlPct || exists i :: 0 <= i < n && e.lowPnlPct == PnlPct(Bid(looks, i), entry))
            && (e.wasPositive <==> m.wasPositive || exists i :: 0 <= i < n && Bid(looks, i) > entry)
    decreases n
  {
    hide After, NearHigh, PnlPct;
    if n == 0 {
      NoLook(m, entry, looks, cfg);
    } else {
      ExtremesOfBids(m, entry, looks, cfg, n - 1);
      OneLook(m, entry, looks, cfg, n - 1);
      PositiveAboveEntry(Bid(looks, n - 1), entry);
    }
  }

  lemma PositiveAboveEntry(price: real, entry: real)
    requires entry > 0.0
    ensures PnlPct(price, entry) > 0.0 <==> price > entry
  {
    var x := (price - entry) / entry;
    assert x * entry == price - entry;
    Scale(0.0, x, entry);
  }

  /** The bid before look `i`. */
  function Before(m: Memory, looks: seq<Look>, i: nat): real
    requires i <= |looks|
  {
    if i == 0 then m.lastBid else Bid(looks, i - 1)
  }

  lemma {:induction false} BidStoodSince(m: Memory, entry: real, looks: seq<Look>, cfg: Config, n: nat, s: nat)
    requires entry > 0.0 && Bids(looks) && s <= n <= |looks|
    requires (forall i :: s <= i < n ==> Bid(looks, i) == Before(m, looks, i))
    requires s > 0 ==> Bid(looks, s - 1) != Before(m, looks, s - 1)
    ensures var e := After(m, entry, looks[..n], cfg);
            && e.lastBid == Before(m, looks, n) && e.bidSince == (if s == 0 then m.bidSince else looks[s - 1].at)
            && e.lastQuoteAt == if n == 0 then m.lastQuoteAt else looks[n - 1].at
    decreases n
  {
    hide After, NearHigh, PnlPct;
    if n == 0 {
      NoLook(m, entry, looks, cfg);
    } else {
      OneLook(m, entry, looks, cfg, n - 1);
      if s < n {
        BidStoodSince(m, entry, looks, cfg, n - 1, s);
      } else {
        LastBidIs(m, entry, looks, cfg, n - 1);
      }
    }
  }

  lemma {:induction false} LastBidIs(m: Memory, entry: real, looks: seq<Look>, cfg: Config, n: nat)
    requires entry > 0.0 && Bids(looks) && n <= |looks|
    ensures After(m, entry, looks[..n], cfg).lastBid == Before(m, looks, n)
  {
    if n == 0 {
      NoLook(m, entry, looks, cfg);
    } else {
      OneLook(m, entry, looks, cfg, n - 1);
    }
  }

  function Depth(looks: seq<Look>, i: nat): real
    requires i < |looks|
  {
    looks[i].book.bidDepth + looks[i].book.askDepth
  }

  /** The depth compared with is the first that was there, or the one remembered. */
  lemma {:induction false} DepthIsFirstSeen(m: Memory, entry: real, looks: seq<Look>, cfg: Config, n: nat, s: nat)
    requires entry > 0.0 && Bids(looks) && s <= n <= |looks|
    requires m.initialDepth == 0.0 && (forall i :: 0 <= i < s ==> Depth(looks, i) == 0.0) && (s < n ==> Depth(looks, s) != 0.0)
    ensures After(m, entry, looks[..n], cfg).initialDepth == if s < n then Depth(looks, s) else 0.0
    decreases n
  {
    hide After, NearHigh, PnlPct;
    if n == 0 {
      NoLook(m, entry, looks, cfg);
    } else {
      OneLook(m, entry, looks, cfg, n - 1);
      DepthIsFirstSeen(m, entry, looks, cfg, n - 1, if s < n then s else s - 1);
    }
  }

  /** From look `s` on, the profit has stayed within a point of `pct`. */
  ghost predicate Stagnates(entry: real, looks: seq<Look>, s: nat, n: nat, pct: real)
    requires n <= |looks|
  {
    forall i :: s <= i < n ==> Abs(PnlPct(Bid(looks, i), entry) - pct) <= 1.0
  }

  /** Progress dates from the last look whose profit was more than a point away from the one noted before:
  that profit is noted, and every look since has stayed within a point of it. */
  lemma {:induction false} ProgressSince(m: Memory, entry: real, looks: seq<Look>, cfg: Config, n: nat)
    requires entry > 0.0 && Bids(looks) && n <= |looks|
    ensures var e := After(m, entry, looks[..n], cfg);
            || (e.progressAt == m.progressAt && e.progressPct == m.progressPct && Stagnates(entry, looks, 0, n, m.progressPct))
            || exists s :: 0 <= s < n && e.progressAt == looks[s].at && e.progressPct == PnlPct(Bid(looks, s), entry)
                           && Stagnates(entry, looks, s, n, e.progressPct)
    decreases n
  {
    hide After, NearHigh, PnlPct;
    if n == 0 {
      NoLook(m, entry, looks, cfg);
    } else {
      ProgressSince(m, entry, looks, cfg, n - 1);
      OneLook(m, entry, looks, cfg, n - 1);
      var e := After(m, entry, looks[..n], cfg);
      if e.progressPct == PnlPct(Bid(looks, n - 1), entry) && e.progressAt == looks[n - 1].at {
        assert Stagnates(entry, looks, n - 1, n, e.progressPct);
      }
    }
  }
}

/** The local order book of `marketdata.rs`. */
module MarketData {
  import opened Wrappers

  /* The in-place snapshot diff against a rebuild, and a top-of-book update that never leaves a crossed
  book. */

  type Side = map<real, real>
  type Levels = seq<(real, real)>

  // ---------- sides ----------

  /** The last positive size a snapshot gives a price; zero sizes never count. */
  function Rebuilt(levels: Levels): Side {
    if levels == [] then map[]
    else
      var (p, s) := levels[|levels| - 1];
      var side := Rebuilt(levels[..|levels| - 1]);
      if s > 0.0 then side[p := s] else side
  }

  function PositiveCount(levels: Levels): nat {
    if levels == [] then 0
    else PositiveCount(levels[..|levels| - 1]) + if levels[|levels| - 1].1 > 0.0 then 1 else 0
  }

  predicate Quoted(levels: Levels, p: real) {
    exists i :: 0 <= i < |levels| && levels[i].0 == p && levels[i].1 > 0.0
  }

  lemma {:induction false} RebuiltKeys(levels: Levels)
    ensures forall p :: p in Rebuilt(levels) <==> Quoted(levels, p)
    ensures |Rebuilt(levels)| <= PositiveCount(levels)
    decreases |levels|
  {
    if levels != [] {
      var init := levels[..|levels| - 1];
      var (p, s) := levels[|levels| - 1];
      RebuiltKeys(init);
      var side := Rebuilt(init);
      forall q ensures q in Rebuilt(levels) <==> Quoted(levels, q) {
        if Quoted(init, q) {
          var i :| 0 <= i < |init| && init[i].0 == q && init[i].1 > 0.0;
          assert levels[i] == init[i];
        }
        if Quoted(levels, q) {
          var i :| 0 <= i < |levels| && levels[i].0 == q && levels[i].1 > 0.0;
          assert i == |init| || (init[i] == levels[i] && Quoted(init, q));
        }
        if s > 0.0 && q == p {
          assert levels[|levels| - 1].0 == q;
        }
      }
      if s > 0.0 {
        assert side[p := s].Keys == side.Keys + {p};
        assert |side[p := s].Keys| == |side[p := s]| && |side.Keys| == |side|;
      }
    }
  }

  /** The side shows these levels: exactly the prices with a positive size, each with the last of them. */
  ghost predicate Shows(side: Side, levels: Levels) {
    && (forall p :: p in side <==> Quoted(levels, p))
    && forall i :: 0 <= i < |levels| && LastPositive(levels, i) ==> levels[i].0 in side && side[levels[i].0] == levels[i].1
  }

  predicate LastPositive(levels: Levels, i: nat)
    requires i < |levels|
  {
    levels[i].1 > 0.0 && forall j :: i < j < |levels| && levels[j].1 > 0.0 ==> levels[j].0 != levels[i].0
  }

  lemma {:induction false} RebuiltShows(levels: Levels)
    ensures Shows(Rebuilt(levels), levels)
    decreases |levels|
  {
    RebuiltKeys(levels);
    if levels != [] {
      var n := |levels| - 1;
      RebuiltShows(levels[..n]);
      forall i | 0 <= i < n && LastPositive(levels, i)
        ensures Rebuilt(levels[..n])[levels[i].0] == levels[i].1 && (levels[n].1 > 0.0 ==> levels[n].0 != levels[i].0)
      {
        assert LastPositive(levels[..n], i);
      }
    }
  }

  /** The side after the diff: everything upserted, then stale levels dropped only when the count
  says some are there. */
  function Diffed(side: Side, levels: Levels): Side {
    var merged := side + Rebuilt(levels);
    if |merged| != PositiveCount(levels) then (map p | p in merged && Quoted(levels, p) :: merged[p]) else merged
  }

  /** The positive prices of a snapshot are pairwise different. */
  ghost predicate DistinctPrices(levels: Levels) {
    forall i, j :: 0 <= i < j < |levels| && levels[i].1 > 0.0 && levels[j].1 > 0.0 ==> levels[i].0 != levels[j].0
  }

  lemma {:induction false} DistinctCount(levels: Levels)
    requires DistinctPrices(levels)
    ensures |Rebuilt(levels)| == PositiveCount(levels)
    decreases |levels|
  {
    if levels != [] {
      var init := levels[..|levels| - 1];
      var (p, s) := levels[|levels| - 1];
      DistinctCount(init);
      RebuiltKeys(init);
      var side := Rebuilt(init);
      if s > 0.0 {
        assert p !in side;
        assert side[p := s].Keys == side.Keys + {p};
        assert |side[p := s].Keys| == |side[p := s]| && |side.Keys| == |side|;
      }
    }
  }

  lemma SubsetSizes(a: set<real>, b: set<real>)
    requires a <= b
    ensures |a| <= |b| && (|a| == |b| ==> a == b)
  {
    assert |b| == |a| + |b - a| by { assert a + (b - a) == b; }
    if |a| == |b| {
      assert b - a == {};
    }
  }

  /** The diff is the rebuild exactly when its count tells a stale level is there, or none is. */
  lemma DiffIsRebuild(side: Side, levels: Levels)
    ensures var merged := side + Rebuilt(levels);
            Diffed(side, levels) == Rebuilt(levels) <==> |merged| != PositiveCount(levels) || side.Keys <= Rebuilt(levels).Keys
  {
    hide Quoted, Rebuilt, PositiveCount;
    var rebuilt := Rebuilt(levels);
    var merged := side + rebuilt;
    RebuiltKeys(levels);
    assert merged.Keys == side.Keys + rebuilt.Keys;
    if |merged| != PositiveCount(levels) {
      assert Diffed(side, levels) == rebuilt;
    } else if side.Keys <= rebuilt.Keys {
      assert merged == rebuilt;
    } else {
      assert merged.Keys != rebuilt.Keys;
    }
  }

  /** So a snapshot without repeated prices always replaces the side. */
  lemma SnapshotReplaces(side: Side, levels: Levels)
    requires DistinctPrices(levels)
    ensures Diffed(side, levels) == Rebuilt(levels)
  {
    hide Quoted, Rebuilt, PositiveCount, Diffed;
    var rebuilt := Rebuilt(levels);
    var merged := side + rebuilt;
    DiffIsRebuild(side, levels);
    DistinctCount(levels);
    assert merged.Keys == side.Keys + rebuilt.Keys;
    assert |rebuilt.Keys| == |rebuilt| && |merged.Keys| == |merged|;
    SubsetSizes(rebuilt.Keys, merged.Keys);
  }

  lemma TwiceTheSame(p: real, s: real)
    requires s > 0.0
    ensures Rebuilt([(p, s), (p, s)]) == map[p := s] && PositiveCount([(p, s), (p, s)]) == 2
  {
    var levels: Levels := [(p, s), (p, s)];
    var init := levels[..1];
    assert init == [(p, s)] && init[..0] == [];
    assert Rebuilt(init) == map[p := s] && PositiveCount(init) == 1;
  }

  /** A snapshot that repeats a price can leave a level behind that it does not quote. */
  lemma RepeatedPriceKeepsStaleLevel()
    ensures var side: Side, levels: Levels := map[1.0 := 5.0], [(2.0, 1.0), (2.0, 1.0)];
            Diffed(side, levels) != Rebuilt(levels) && Rebuilt(levels) == map[2.0 := 1.0]
  {
    hide Diffed, Rebuilt, PositiveCount, DistinctPrices;
    var side: Side := map[1.0 := 5.0];
    var levels: Levels := [(2.0, 1.0), (2.0, 1.0)];
    TwiceTheSame(2.0, 1.0);
    var merged := side + Rebuilt(levels);
    assert merged.Keys == {1.0, 2.0} && |merged| == |merged.Keys|;
    DiffIsRebuild(side, levels);
  }

  /** The size a sequence of updates leaves at a price it mentions; none when the last one removes it. */
  function LastUpdate(levels: Levels, p: real): Option<real> {
    if levels == [] then None
    else if levels[|levels| - 1].0 == p then Some(levels[|levels| - 1].1)
    else LastUpdate(levels[..|levels| - 1], p)
  }

  /** That is the size of the last level at the price, and nothing when no level is. */
  lemma {:induction false} LastUpdateIs(levels: Levels, p: real, n: nat)
    requires n <= |levels| && (forall j :: n <= j < |levels| ==> levels[j].0 != p) && (n > 0 ==> levels[n - 1].0 == p)
    ensures LastUpdate(levels, p) == if n > 0 then Some(levels[n - 1].1) else None
    decreases |levels|
  {
    if levels != [] && n < |levels| {
      assert levels[|levels| - 1].0 != p;
      LastUpdateIs(levels[..|levels| - 1], p, n);
    }
  }

  ghost predicate Merged(before: Side, levels: Levels, after: Side) {
    forall p {:trigger p in after} {:trigger LastUpdate(levels, p)} ::
      match LastUpdate(levels, p)
      case None => (p in after <==> p in before) && (p in after ==> after[p] == before[p])
      case Some(s) => if s > 0.0 then p in after && after[p] == s else p !in after
  }

  // ---------- tops ----------

  lemma EmptyOrNot(s: set<real>)
    ensures s == {} || exists x :: x in s
  {
    if forall x :: x !in s {
      assert s == {};
    }
  }

  predicate IsMax(s: set<real>, p: real) {
    p in s && forall q :: q in s ==> q <= p
  }

  lemma {:induction false} HasMax(s: set<real>)
    requires s != {}
    ensures exists p :: IsMax(s, p)
    decreases |s|
  {
    EmptyOrNot(s);
    var x :| x in s;
    var rest := s - {x};
    assert forall q :: q in s ==> q == x || q in rest;
    if rest == {} {
      assert IsMax(s, x);
    } else {
      HasMax(rest);
      var p :| IsMax(rest, p);
      assert IsMax(s, if p <= x then x else p);
    }
  }

  predicate IsMin(s: set<real>, p: real) {
    p in s && forall q :: q in s ==> q >= p
  }

  lemma {:induction false} HasMin(s: set<real>)
    requires s != {}
    ensures exists p :: IsMin(s, p)
    decreases |s|
  {
    EmptyOrNot(s);
    var x :| x in s;
    var rest := s - {x};
    assert forall q :: q in s ==> q == x || q in rest;
    if rest == {} {
      assert IsMin(s, x);
    } else {
      HasMin(rest);
      var p :| IsMin(rest, p);
      assert IsMin(s, if p >= x then x else p);
    }
  }

  /** The highest bid; zero for an empty side. */
  function BestBid(bids: Side): (r: real)
    ensures bids == map[] ==> r == 0.0
    ensures bids != map[] ==> IsMax(bids.Keys, r)
  {
    if bids == map[] then 0.0
    else
      HasMax(bids.Keys);
      var p :| IsMax(bids.Keys, p);
      p
  }

  /** The lowest ask; zero for an empty side. */
  function BestAsk(asks: Side): (r: real)
    ensures asks == map[] ==> r == 0.0
    ensures asks != map[] ==> IsMin(asks.Keys, r)
  {
    if asks == map[] then 0.0
    else
      HasMin(asks.Keys);
      var p :| IsMin(asks.Keys, p);
      p
  }

  predicate Positive(side: Side) {
    forall p :: p in side ==> p > 0.0
  }

  function AtMost(side: Side, top: real): Side {
    map p | p in side && p <= top :: side[p]
  }

  function AtLeast(side: Side, bottom: real): Side {
    map p | p in side && p >= bottom :: side[p]
  }

  const NOMINAL := 1.0

  function Positively(quote: Option<real>): Option<real> {
    if quote.Some? && quote.value > 0.0 then quote else None
  }

  predicate Quotes(quote: Option<real>) {
    quote.Some? && quote.value > 0.0
  }

  /** Of the old side, the levels within `keep` and no others are there, each with its size; the new quote,
  if there is one within `keep`, is there with the nominal size. */
  ghost predicate Topped(before: Side, side: Side, quote: Option<real>, keep: real -> bool) {
    && (forall p :: p in side <==> keep(p) && (quote == Some(p) || p in before))
    && forall p :: p in side ==> if quote == Some(p) then side[p] == 1.0 else p in before && side[p] == before[p]
  }

  /** Both sides under a new top: of the old levels those that neither quote crosses, and the quotes; a bid
  above the ask is crossed by it. */
  ghost predicate TopsQuoted(bids0: Side, asks0: Side, bids: Side, asks: Side, bid: Option<real>, ask: Option<real>) {
    && Topped(bids0, bids, Positively(bid), p => (Quotes(bid) ==> p <= bid.value) && (Quotes(ask) ==> p <= ask.value))
    && Topped(asks0, asks, Positively(ask), p => (Quotes(ask) ==> p >= ask.value) && (Quotes(bid) && Positively(ask) != Some(p) ==> p >= bid.value))
  }

  lemma TopsPositive(bids: Side, asks: Side)
    requires Positive(bids) && Positive(asks)
    ensures BestBid(bids) > 0.0 <==> bids != map[]
    ensures BestAsk(asks) > 0.0 <==> asks != map[]
  {
  }

  lemma PulledDown(bids: Side, ask: real)
    requires Positive(bids) && ask > 0.0
    ensures var pulled := AtMost(bids[ask := NOMINAL], ask);
            Topped(bids, pulled, Some(ask), p => p <= ask) && Positive(pulled) && BestBid(pulled) == ask
  {
    var pulled := AtMost(bids[ask := NOMINAL], ask);
    assert ask in pulled && forall q :: q in pulled ==> q <= ask;
  }

  /** The quotes in their turn: the bid with what it leaves of the asks, then the ask. */
  lemma QuotedInTurn(bids0: Side, asks0: Side, bids1: Side, asks1: Side, bids2: Side, asks2: Side, bid: Option<real>, ask: Option<real>)
    requires if Quotes(bid) then Topped(bids0, bids1, bid, p => p <= bid.value) && asks1 == AtLeast(asks0, bid.value)
             else bids1 == bids0 && asks1 == asks0
    requires if Quotes(ask) then Topped(asks1, asks2, ask, p => p >= ask.value) && bids2 == AtMost(bids1, ask.value)
             else bids2 == bids1 && asks2 == asks1
    ensures TopsQuoted(bids0, asks0, bids2, asks2, bid, ask)
  {
  }

  // ---------- the book ----------

  class LocalBook {
    var bids: Side
    var asks: Side
    var timestamp: int

    constructor ()
      ensures bids == map[] && asks == map[]
    {
      bids, asks, timestamp := map[], map[], 0;
    }

    /** Never a best bid above a best ask, when both sides quote. */
    predicate Uncrossed()
      reads this
    {
      bids != map[] && asks != map[] ==> BestBid(bids) <= BestAsk(asks)
    }

    method ApplySnapshot(newBids: Levels, newAsks: Levels, now: int)
      modifies this
      ensures bids == Diffed(old(bids), newBids) && asks == Diffed(old(asks), newAsks) && timestamp == now
      ensures DistinctPrices(newBids) && DistinctPrices(newAsks) ==> bids == Rebuilt(newBids) && asks == Rebuilt(newAsks)
      ensures DistinctPrices(newBids) && DistinctPrices(newAsks) ==> Shows(bids, newBids) && Shows(asks, newAsks)
    {
      hide Diffed, Rebuilt, DistinctPrices, Shows;
      RebuiltShows(newBids);
      RebuiltShows(newAsks);
      if DistinctPrices(newBids) && DistinctPrices(newAsks) {
        SnapshotReplaces(bids, newBids);
        SnapshotReplaces(asks, newAsks);
      }
      bids := ReplaceLevels(bids, newBids);
      asks := ReplaceLevels(asks, newAsks);
      timestamp := now;
    }

    method ApplyDelta(newBids: Levels, newAsks: Levels, now: int)
      modifies this
      ensures Merged(old(bids), newBids, bids) && Merged(old(asks), newAsks, asks) && timestamp == now
    {
      bids := ApplyLevels(bids, newBids);
      asks := ApplyLevels(asks, newAsks);
      timestamp := now;
    }

    method QuoteBid(b: real)
      requires b > 0.0 && Positive(bids) && Positive(asks)
      modifies this`bids, this`asks
      ensures Positive(bids) && Positive(asks) && BestBid(bids) == b && b in bids && asks == AtLeast(old(asks), b)
      ensures Topped(old(bids), bids, Some(b), p => p <= b)
      ensures Uncrossed()
    {
      hide BestBid, BestAsk;
      asks := AtLeast(asks, b);
      bids := bids[b := NOMINAL];
      bids := AtMost(bids, b);
      assert b in bids && forall q :: q in bids ==> q <= b;
    }

    method QuoteAsk(a: real)
      requires a > 0.0 && Positive(bids) && Positive(asks)
      modifies this`bids, this`asks
      ensures Positive(bids) && Positive(asks) && BestAsk(asks) == a && a in asks && bids == AtMost(old(bids), a)
      ensures Topped(old(asks), asks, Some(a), p => p >= a)
      ensures Uncrossed()
    {
      hide BestBid, BestAsk;
      bids := AtMost(bids, a);
      asks := asks[a := NOMINAL];
      asks := AtLeast(asks, a);
      assert a in asks && forall q :: q in asks ==> a <= q;
    }

    /** A new top of book: from any positive-priced book, crossed or not, the result is uncrossed, a
    proper pair of quotes becomes exactly the tops, and the final clamp is for updates that quote
    nothing. */
    method UpdateTop(bid: Option<real>, ask: Option<real>, now: int) returns (clamped: bool)
      requires Positive(bids) && Positive(asks)
      modifies this
      ensures Positive(bids) && Positive(asks) && Uncrossed() && timestamp == now
      ensures Quotes(bid) && Quotes(ask) && bid.value <= ask.value ==> BestBid(bids) == bid.value && BestAsk(asks) == ask.value
      ensures Quotes(bid) && !Quotes(ask) ==> BestBid(bids) == bid.value
      ensures Quotes(ask) ==> BestAsk(asks) == ask.value
      ensures !clamped ==>
                TopsQuoted(old(bids), old(asks), bids, asks, bid, ask)
      ensures clamped ==> Topped(old(bids), bids, Some(BestAsk(old(asks))), p => p <= BestAsk(old(asks)))
      ensures clamped <==> !Quotes(bid) && !Quotes(ask) && !old(Uncrossed())
      ensures clamped ==> BestBid(bids) == BestAsk(asks) && asks == old(asks)
      ensures !clamped && !Quotes(bid) && !Quotes(ask) ==> bids == old(bids) && asks == old(asks)
    {
      hide BestBid, BestAsk, Topped, Positive;
      QuoteTops(bid, ask);
      var bb, ba := BestBid(bids), BestAsk(asks);
      TopsPositive(bids, asks);
      clamped := bb > 0.0 && ba > 0.0 && bb > ba;
      if clamped {
        PulledDown(bids, ba);
        bids := bids[ba := NOMINAL];
        bids := AtMost(bids, ba);
      }
      timestamp := now;
    }

    /** The quotes themselves, the bid first. */
    method QuoteTops(bid: Option<real>, ask: Option<real>)
      requires Positive(bids) && Positive(asks)
      modifies this`bids, this`asks
      ensures Positive(bids) && Positive(asks) && (Quotes(bid) || Quotes(ask) ==> Uncrossed())
      ensures TopsQuoted(old(bids), old(asks), bids, asks, bid, ask)
      ensures !Quotes(bid) && !Quotes(ask) ==> bids == old(bids) && asks == old(asks)
      ensures Quotes(bid) && (Quotes(ask) ==> bid.value <= ask.value) ==> BestBid(bids) == bid.value
      ensures Quotes(ask) ==> BestAsk(asks) == ask.value
    {
      hide BestBid, BestAsk, Topped, TopsQuoted;
      if bid.Some? && bid.value > 0.0 {
        QuoteBid(bid.value);
      }
      ghost var bids1, asks1 := bids, asks;
      if ask.Some? && ask.value > 0.0 {
        label quoted:
        QuoteAsk(ask.value);
        if Quotes(bid) && bid.value <= ask.value {
          assert bid.value in bids && forall q :: q in bids ==> q in old@quoted(bids);
        }
      }
      QuotedInTurn(old(bids), old(asks), bids1, asks1, bids, asks, bid, ask);
    }
  }

  method ApplyLevels(side0: Side, levels: Levels) returns (side: Side)
    ensures Merged(side0, levels, side)
  {
    side := side0;
    for i := 0 to |levels|
      invariant Merged(side0, levels[..i], side)
    {
      var (p, s) := levels[i];
      assert levels[..i + 1][..i] == levels[..i];
      if s <= 0.0 {
        side := side - {p};
      } else {
        side := side[p := s];
      }
    }
    assert levels[..|levels|] == levels;
  }

  lemma NoLevels()
    ensures Rebuilt([]) == map[] && PositiveCount([]) == 0
  {
  }

  lemma NextLevel(side0: Side, levels: Levels, i: nat)
    requires i < |levels|
    ensures var (p, s) := levels[i];
            && side0 + Rebuilt(levels[..i + 1]) == (if s > 0.0 then (side0 + Rebuilt(levels[..i]))[p := s] else side0 + Rebuilt(levels[..i]))
            && PositiveCount(levels[..i + 1]) == PositiveCount(levels[..i]) + if s > 0.0 then 1 else 0
  {
    var (p, s) := levels[i];
    assert levels[..i + 1][..i] == levels[..i];
    assert side0 + Rebuilt(levels[..i])[p := s] == (side0 + Rebuilt(levels[..i]))[p := s];
  }

  /** Upsert, count, and scan for stale levels only when the counts differ. */
  method ReplaceLevels(side0: Side, levels: Levels) returns (side: Side)
    ensures side == Diffed(side0, levels)
  {
    hide Rebuilt, PositiveCount, Quoted;
    side := side0;
    var valid := 0;
    NoLevels();
    for i := 0 to |levels|
      invariant side == side0 + Rebuilt(levels[..i]) && valid == PositiveCount(levels[..i])
    {
      var (p, s) := levels[i];
      NextLevel(side0, levels, i);
      if s > 0.0 {
        side := side[p := s];
        valid := valid + 1;
      }
    }
    assert levels[..|levels|] == levels;
    if |side| != valid {
      side := map p | p in side && Quoted(levels, p) :: side[p];
    }
  }
}

/** The cash ledger of `ledger.rs`. */
module Ledger {
  import opened Wrappers

  /* A clamped balance, its append-only journal with a bounded memory window, and the reservation
  table. */

  // ---------- the journal ----------

  datatype Kind =
    Seed | BuyFill | SellFill | Fee | Merge | Redemption | ExpiryFallback | Cashflow | Realign | Reset

  datatype Entry = Entry(atMs: int, kind: Kind, amount: real, balanceAfter: real, ref: string)

  const JOURNAL_CAP := 10000

  /** The balance a trail ends at; a trail starts from nothing. */
  function EndOf(trail: seq<Entry>): real {
    if trail == [] then 0.0 else trail[|trail| - 1].balanceAfter
  }

  /** Each row moves the balance the row before it left, and never below zero. */
  ghost predicate Chained(trail: seq<Entry>) {
    forall i :: 0 <= i < |trail| ==> trail[i].balanceAfter == EndOf(trail[..i]) + trail[i].amount && trail[i].balanceAfter >= 0.0
  }

  function Sum(trail: seq<Entry>): real {
    if trail == [] then 0.0 else Sum(trail[..|trail| - 1]) + trail[|trail| - 1].amount
  }

  /** The amounts of a chained trail add up to the balance it ends at. */
  lemma {:induction false} SumIsBalance(trail: seq<Entry>)
    requires Chained(trail)
    ensures Sum(trail) == EndOf(trail) >= 0.0
    decreases |trail|
  {
    if trail != [] {
      var init := trail[..|trail| - 1];
      assert forall i :: 0 <= i < |init| ==> init[..i] == trail[..i];
      SumIsBalance(init);
      assert trail[|trail| - 1].balanceAfter == EndOf(init) + trail[|trail| - 1].amount;
    }
  }

  lemma {:induction false} SumWithout(rows: seq<Entry>, i: nat)
    requires i < |rows|
    ensures Sum(rows[..i] + rows[i + 1..]) == Sum(rows) - rows[i].amount
    decreases |rows|
  {
    var n := |rows| - 1;
    var left := rows[..i] + rows[i + 1..];
    if i == n {
      assert left == rows[..n];
    } else {
      SumWithout(rows[..n], i);
      assert left[..|left| - 1] == rows[..n][..i] + rows[..n][i + 1..];
    }
  }

  /** A row lost from the file, other than the last: a boot still finds the balance, but the amounts
  now miss it by exactly the lost row's, and the rows chain only if that row moved nothing. */
  lemma LostRow(rows: seq<Entry>, i: nat)
    requires Chained(rows) && i + 1 < |rows|
    ensures var left := rows[..i] + rows[i + 1..];
            && EndOf(left) == EndOf(rows) && Sum(left) == EndOf(left) - rows[i].amount
            && (Chained(left) <==> rows[i].amount == 0.0)
  {
    var left := rows[..i] + rows[i + 1..];
    assert left[|left| - 1] == rows[|rows| - 1];
    hide Chained;
    SumIsBalance(rows);
    SumWithout(rows, i);
    if Chained(left) {
      SumIsBalance(left);
    }
    if rows[i].amount == 0.0 {
      IdleRowLost(rows, i);
    }
  }

  lemma EndAt(trail: seq<Entry>, j: nat)
    requires j <= |trail|
    ensures EndOf(trail[..j]) == if j == 0 then 0.0 else trail[j - 1].balanceAfter
  {
  }

  lemma IdleRowLost(rows: seq<Entry>, i: nat)
    requires Chained(rows) && i + 1 < |rows| && rows[i].amount == 0.0
    ensures Chained(rows[..i] + rows[i + 1..])
  {
    var left := rows[..i] + rows[i + 1..];
    EndAt(rows, i);
    forall j | 0 <= j < |left| ensures left[j].balanceAfter == EndOf(left[..j]) + left[j].amount && left[j].balanceAfter >= 0.0 {
      var k := if j < i then j else j + 1;
      EndAt(left, j);
      EndAt(rows, k);
      assert left[j] == rows[k] && (j > 0 ==> left[j - 1] == rows[if j - 1 < i then j - 1 else j]);
    }
  }

  lemma ChainedMore(trail: seq<Entry>, row: Entry)
    requires Chained(trail) && row.balanceAfter == EndOf(trail) + row.amount && row.balanceAfter >= 0.0
    ensures Chained(trail + [row]) && EndOf(trail + [row]) == row.balanceAfter
  {
    var more := trail + [row];
    forall i | 0 <= i < |more| ensures more[i].balanceAfter == EndOf(more[..i]) + more[i].amount && more[i].balanceAfter >= 0.0 {
      assert more[..i] == if i < |trail| then trail[..i] else trail;
    }
  }

  /** The newest rows that memory keeps. */
  function Window(trail: seq<Entry>): seq<Entry> {
    if |trail| > JOURNAL_CAP then trail[|trail| - JOURNAL_CAP..] else trail
  }

  /** One row pushed, the oldest popped when the window is full. */
  function Pushed(journal: seq<Entry>, row: Entry): seq<Entry> {
    (if |journal| == JOURNAL_CAP then journal[1..] else journal) + [row]
  }

  lemma WindowPushed(trail: seq<Entry>, row: Entry)
    ensures Pushed(Window(trail), row) == Window(trail + [row])
  {
  }

  lemma EmptyTrail()
    ensures Window([]) == [] && Chained([]) && EndOf([]) == 0.0
  {
  }

  lemma LastInWindow(trail: seq<Entry>)
    ensures Window(trail) == [] <==> trail == []
    ensures trail != [] ==> EndOf(trail) == Window(trail)[|Window(trail)| - 1].balanceAfter
  {
  }

  // ---------- the reservation table ----------

  type Table = map<string, real>

  ghost function Total(m: Table): real
    decreases |m|
  {
    if m == map[] then 0.0
    else
      var k :| k in m;
      m[k] + Total(m - {k})
  }

  /** The total does not depend on the order it is taken in. */
  lemma {:induction false} TotalWithout(m: Table, k: string)
    requires k in m
    ensures Total(m) == m[k] + Total(m - {k})
    decreases |m|
  {
    var j :| j in m && Total(m) == m[j] + Total(m - {j});
    if j != k {
      TotalWithout(m - {j}, k);
      TotalWithout(m - {k}, j);
      assert m - {j} - {k} == m - {k} - {j};
    }
  }

  lemma TotalWith(m: Table, k: string, v: real)
    ensures Total(m[k := v]) == Total(m) - (if k in m then m[k] else 0.0) + v
  {
    var n := m[k := v];
    TotalWithout(n, k);
    if k in m {
      TotalWithout(m, k);
      assert n - {k} == m - {k};
    } else {
      assert n - {k} == m;
    }
  }

  predicate NonNegative(m: Table) {
    forall k :: k in m ==> m[k] >= 0.0
  }

  lemma {:induction false} TotalNonNegative(m: Table)
    requires NonNegative(m)
    ensures Total(m) >= 0.0
    decreases |m|
  {
    if m != map[] {
      var k :| k in m && Total(m) == m[k] + Total(m - {k});
      TotalNonNegative(m - {k});
    }
  }

  function Max0(x: real): real {
    if x < 0.0 then 0.0 else x
  }

  function Min(x: real, y: real): real {
    if x <= y then x else y
  }

  function Held(m: Table, k: string): real {
    if k in m then m[k] else 0.0
  }

  // ---------- the identity ----------

  ghost function Available(balance: real, m: Table): real {
    Max0(balance - Total(m))
  }

  ghost function Unfunded(balance: real, m: Table): real {
    Max0(Total(m) - balance)
  }

  /** The cash identity. */
  ghost predicate Balanced(balance: real, m: Table) {
    Available(balance, m) + Total(m) == balance
  }

  /** The identity fails exactly by what the balance does not cover. */
  lemma BalancedIffFunded(balance: real, m: Table)
    ensures Balanced(balance, m) <==> Unfunded(balance, m) == 0.0
    ensures Available(balance, m) + Total(m) - balance == Unfunded(balance, m)
  {
  }

  // ---------- the ledger ----------

  datatype Refusal = InvalidParams | InsufficientFunds

  class Book {
    var balance: real
    var reservations: Table
    var journal: seq<Entry>
    var journalTotal: nat
    /** The rows of the durable file, when the deployment persists one. */
    var persists: bool
    var file: seq<Entry>
    var venueReported: bool
    /** Every row since the book began or was last reset. */
    ghost var trail: seq<Entry>

    ghost predicate Valid()
      reads this
    {
      && Chained(trail) && EndOf(trail) == balance && balance >= 0.0
      && journal == Window(trail) && journalTotal >= |journal|
      && (persists ==> file == trail)
      && NonNegative(reservations)
    }

    /** A memory-only book. */
    constructor ()
      ensures Valid() && balance == 0.0 && reservations == map[] && trail == [] && !persists && !venueReported
    {
      balance, reservations, journal, journalTotal, persists, file, venueReported := 0.0, map[], [], 0, false, [], false;
      trail := [];
    }

    /** Boot on a durable file, whatever it holds: the book the file describes, in order exactly
    when the rows chain. */
    constructor Boot(rows: seq<Entry>)
      ensures Valid() <==> Chained(rows)
      ensures persists && file == trail == rows && reservations == map[] && !venueReported
      ensures balance == EndOf(rows) && journal == Window(rows)
    {
      balance, reservations, journal, journalTotal, persists, file, venueReported := 0.0, map[], [], 0, true, rows, false;
      trail := [];
      new;
      Replay(rows);
    }

    /** Only the newest rows are kept, and the last one gives the balance. */
    method Replay(rows: seq<Entry>)
      modifies this`balance, this`journal, this`journalTotal, this`trail
      ensures trail == rows && journal == Window(rows) && journalTotal == |journal|
      ensures balance == if rows == [] then old(balance) else EndOf(rows)
      ensures NonNegative(reservations) && (persists ==> file == rows) && (rows == [] ==> old(balance) == 0.0) ==>
                (Valid() <==> Chained(rows))
    {
      hide Chained, EndOf, Window;
      journal := [];
      EmptyTrail();
      for i := 0 to |rows|
        invariant journal == Window(rows[..i])
        invariant balance == old(balance)
      {
        WindowPushed(rows[..i], rows[i]);
        assert rows[..i] + [rows[i]] == rows[..i + 1];
        if |journal| == JOURNAL_CAP {
          journal := journal[1..];
        }
        journal := journal + [rows[i]];
      }
      assert rows[..|rows|] == rows;
      journalTotal := |journal|;
      LastInWindow(rows);
      if journal != [] {
        balance := journal[|journal| - 1].balanceAfter;
      }
      trail := rows;
      if Chained(rows) {
        SumIsBalance(rows);
      }
    }

    /** Every balance change: clamped at zero, and journaled by what actually moved. */
    method Apply(kind: Kind, requested: real, ref: string, now: int) returns (amount: real)
      requires Valid()
      modifies this`balance, this`journal, this`journalTotal, this`file, this`trail
      ensures Valid()
      ensures balance == Max0(old(balance) + requested) && amount == balance - old(balance)
      ensures trail == old(trail) + if amount == 0.0 then [] else [Entry(now, kind, amount, balance, ref)]
      ensures journalTotal == old(journalTotal) + if amount == 0.0 then 0 else 1
    {
      hide Chained, EndOf, Window;
      var newBalance := Max0(balance + requested);
      amount := newBalance - balance;
      balance := newBalance;
      if amount != 0.0 {
        var entry := Entry(now, kind, amount, balance, ref);
        ChainedMore(trail, entry);
        WindowPushed(trail, entry);
        if persists {
          file := file + [entry];
        }
        if |journal| == JOURNAL_CAP {
          journal := journal[1..];
        }
        journal := journal + [entry];
        journalTotal := journalTotal + 1;
        trail := trail + [entry];
      }
    }

    /** A book set to a target: one row for the difference. */
    method SetTo(kind: Kind, target: real, ref: string, now: int)
      requires Valid()
      modifies this`balance, this`journal, this`journalTotal, this`file, this`trail
      ensures Valid() && balance == Max0(target)
      ensures trail == old(trail) + if balance == old(balance) then [] else [Entry(now, kind, balance - old(balance), balance, ref)]
    {
      hide Chained, EndOf, Window;
      var amount := Apply(kind, Max0(target) - balance, ref, now);
    }

    method SeedTo(target: real, now: int)
      requires Valid()
      modifies this`balance, this`journal, this`journalTotal, this`file, this`trail
      ensures Valid() && balance == Max0(target)
      ensures trail == old(trail) + if balance == old(balance) then [] else [Entry(now, Seed, balance - old(balance), balance, "boot")]
    {
      hide Chained, EndOf, Window;
      SetTo(Seed, target, "boot", now);
    }

    method SetBalance(target: real, now: int)
      requires Valid()
      modifies this`balance, this`journal, this`journalTotal, this`file, this`trail
      ensures Valid() && balance == Max0(target)
      ensures trail == old(trail) + if balance == old(balance) then [] else [Entry(now, Realign, balance - old(balance), balance, "venue")]
    {
      hide Chained, EndOf, Window;
      SetTo(Realign, target, "venue", now);
    }

    method ApplyVenueReport(target: real, now: int)
      requires Valid()
      modifies this`balance, this`journal, this`journalTotal, this`file, this`trail, this`venueReported
      ensures Valid() && venueReported && balance == Max0(target)
      ensures trail == old(trail) + if balance == old(balance) then [] else [Entry(now, Realign, balance - old(balance), balance, "venue")]
    {
      hide Chained, EndOf, Window;
      venueReported := true;
      SetBalance(target, now);
    }

    method ResetToSeed(seed: real, now: int)
      requires Valid()
      modifies this`balance, this`journal, this`journalTotal, this`file, this`trail, this`venueReported
      ensures Valid() && !venueReported && balance == Max0(seed)
      ensures trail == old(trail) + if balance == old(balance) then [] else [Entry(now, Reset, balance - old(balance), balance, "reset")]
    {
      hide Chained, EndOf, Window;
      venueReported := false;
      SetTo(Reset, seed, "reset", now);
    }

    /** Money that arrives: a minted account's funding, or a redemption, merge, fallback or cashflow;
    nothing that is not positive is credited. */
    method Credit(kind: Kind, amount: real, ref: string, now: int)
      requires Valid()
      modifies this`balance, this`journal, this`journalTotal, this`file, this`trail
      ensures Valid() && balance == old(balance) + Max0(amount)
      ensures trail == old(trail) + if amount <= 0.0 then [] else [Entry(now, kind, amount, balance, ref)]
    {
      hide Chained, EndOf, Window;
      if amount <= 0.0 {
        return;
      }
      var moved := Apply(kind, amount, ref, now);
    }

    /** A sale credits its proceeds less its fee, in one row. */
    method SettleSellFill(proceeds: real, fee: real, now: int)
      requires Valid()
      modifies this`balance, this`journal, this`journalTotal, this`file, this`trail
      ensures Valid() && balance == Max0(old(balance) + (proceeds - fee))
      ensures trail == old(trail) + if balance == old(balance) then [] else [Entry(now, SellFill, balance - old(balance), balance, "sell")]
    {
      hide Chained, EndOf, Window;
      var moved := Apply(SellFill, proceeds - fee, "sell", now);
    }

    method ChargeFee(fee: real, now: int)
      requires Valid()
      modifies this`balance, this`journal, this`journalTotal, this`file, this`trail
      ensures Valid() && balance == Max0(old(balance) - fee)
      ensures trail == old(trail) + if balance == old(balance) then [] else [Entry(now, Fee, balance - old(balance), balance, "entry fee")]
    {
      hide Chained, EndOf, Window;
      var moved := Apply(Fee, -fee, "entry fee", now);
    }

    /** The trail rewritten as its one reset row, in memory and on disk. */
    method ResetAccountToSeed(seed: real, now: int)
      requires Valid()
      modifies this
      ensures Valid() && balance == Max0(seed) && reservations == map[] && !venueReported && persists == old(persists)
      ensures trail == [Entry(now, Reset, Max0(seed), Max0(seed), "reset")] && journalTotal == old(journalTotal) + 1
    {
      hide Chained, EndOf, Window;
      var target := Max0(seed);
      reservations, balance, journal, venueReported := map[], target, [], false;
      journalTotal := journalTotal + 1;
      var entry := Entry(now, Reset, target, target, "reset");
      if persists {
        file := [entry];
      }
      journal := journal + [entry];
      trail := [entry];
      EmptyTrail();
      ChainedMore([], entry);
      WindowPushed([], entry);
      assert [] + [entry] == [entry];
      assert Pushed([], entry) == [entry];
    }

    // ---------- reservations ----------

    /** The fold over the table's values. */
    method Reserved() returns (sum: real)
      ensures sum == Total(reservations)
    {
      sum := 0.0;
      var left := reservations;
      while left != map[]
        invariant sum + Total(left) == Total(reservations)
        decreases |left|
      {
        var k :| k in left;
        TotalWithout(left, k);
        sum := sum + left[k];
        left := left - {k};
      }
    }

    /** Gated by what is available, and once per order. */
    method Reserve(order: string, notional: real) returns (r: Result<(), Refusal>)
      requires Valid()
      modifies this`reservations
      ensures Valid()
      ensures r == if notional < 0.0 then Err(InvalidParams)
                   else if order in old(reservations) || notional <= Available(balance, old(reservations)) then Ok(())
                   else Err(InsufficientFunds)
      ensures reservations == if r.Ok? && order !in old(reservations) then old(reservations)[order := notional] else old(reservations)
    {
      if notional < 0.0 {
        return Err(InvalidParams);
      }
      if order in reservations {
        return Ok(());
      }
      var reserved := Reserved();
      if notional > Max0(balance - reserved) {
        return Err(InsufficientFunds);
      }
      reservations := reservations[order := notional];
      return Ok(());
    }

    method Release(order: string) returns (released: real)
      requires Valid()
      modifies this`reservations
      ensures Valid() && released == Held(old(reservations), order)
      ensures reservations == old(reservations) - {order} && Total(reservations) == old(Total(reservations)) - released
    {
      released := Held(reservations, order);
      if order in reservations {
        TotalWithout(reservations, order);
      } else {
        assert reservations - {order} == reservations;
      }
      reservations := reservations - {order};
    }

    /** Sets the commitment of an order, never refusing. */
    method SyncBuyReservation(order: string, remaining: real) returns (prev: real)
      requires Valid()
      modifies this`reservations
      ensures Valid() && prev == Held(old(reservations), order) && Held(reservations, order) == Max0(remaining)
      ensures (order in reservations <==> remaining > 0.0) && reservations - {order} == old(reservations) - {order}
      ensures Total(reservations) == old(Total(reservations)) - prev + Max0(remaining)
    {
      prev := Release(order);
      if Max0(remaining) > 0.0 {
        TotalWith(reservations, order, remaining);
        reservations := reservations[order := remaining];
      }
    }

    /** Releases what the filled shares had reserved, clamped to what is held, and spends their cost. */
    method SettleBuyFill(order: string, cost: real, release: real, now: int) returns (draw: real)
      requires Valid()
      modifies this`balance, this`journal, this`journalTotal, this`file, this`trail, this`reservations
      ensures Valid() && draw == Min(Max0(release), Held(old(reservations), order))
      ensures Held(reservations, order) == Held(old(reservations), order) - draw
      ensures reservations - {order} == old(reservations) - {order}
      ensures Total(reservations) == old(Total(reservations)) - draw
      ensures balance == Max0(old(balance) - cost)
      ensures trail == old(trail) + if balance == old(balance) then [] else [Entry(now, BuyFill, balance - old(balance), balance, order)]
    {
      hide Chained, EndOf, Window;
      var held := Held(reservations, order);
      draw := Min(Max0(release), held);
      if draw > 0.0 {
        var left := held - draw;
        if left > 0.0 {
          TotalWith(reservations, order, left);
          reservations := reservations[order := left];
        } else {
          TotalWithout(reservations, order);
          reservations := reservations - {order};
        }
      }
      var moved := Apply(BuyFill, -cost, order, now);
    }
  }

  // ---------- whole order lives ----------

  /** A fill: its cash cost, and the notional its shares had reserved. */
  datatype Fill = Fill(cost: real, release: real)

  function Costs(fills: seq<Fill>): real {
    if fills == [] then 0.0 else Costs(fills[..|fills| - 1]) + fills[|fills| - 1].cost
  }

  function Releases(fills: seq<Fill>): real {
    if fills == [] then 0.0 else Releases(fills[..|fills| - 1]) + fills[|fills| - 1].release
  }

  /** Fills at or inside the limit: each costs at most what its shares had reserved. */
  predicate WithinLimit(fills: seq<Fill>) {
    forall i :: 0 <= i < |fills| ==> 0.0 <= fills[i].cost <= fills[i].release
  }

  lemma {:induction false} ReleasesGrow(fills: seq<Fill>, i: nat)
    requires WithinLimit(fills) && i <= |fills|
    ensures 0.0 <= Costs(fills[..i]) <= Releases(fills[..i]) <= Releases(fills)
    decreases |fills|
  {
    if fills != [] {
      var init := fills[..|fills| - 1];
      ReleasesGrow(init, if i < |fills| then i else |init|);
      if i < |fills| {
        assert init[..i] == fills[..i];
      } else {
        assert fills[..i] == fills && init[..|init|] == init;
      }
    }
  }

  /** Reserve and fill: from a balanced book an order within its limit is admitted, and whatever has
  been filled of it so far, the identity holds, the book has paid exactly the fills, and the order
  holds what they have left of its commitment. */
  method PlaceAndFill(book: Book, order: string, notional: real, fills: seq<Fill>, now: int) returns (r: Result<(), Refusal>)
    requires book.Valid() && Balanced(book.balance, book.reservations) && order !in book.reservations
    requires WithinLimit(fills) && Releases(fills) <= notional
    modifies book
    ensures book.Valid() && Balanced(book.balance, book.reservations)
    ensures r.Ok? <==> 0.0 <= notional <= Available(old(book.balance), old(book.reservations))
    ensures r.Err? ==> book.balance == old(book.balance) && book.reservations == old(book.reservations)
    ensures r.Ok? ==>
              && book.balance == old(book.balance) - Costs(fills)
              && book.reservations - {order} == old(book.reservations)
              && Held(book.reservations, order) == notional - Releases(fills)
  {
    hide Costs, Releases, Book.Valid;
    ghost var table, start, total := book.reservations, book.balance, Total(book.reservations);
    r := book.Reserve(order, notional);
    if r.Err? {
      return;
    }
    TotalWith(table, order, notional);
    NoFills();
    for i := 0 to |fills|
      invariant book.Valid() && book.reservations - {order} == table
      invariant Held(book.reservations, order) == notional - Releases(fills[..i])
      invariant Total(book.reservations) == total + notional - Releases(fills[..i])
      invariant book.balance == start - Costs(fills[..i]) && Balanced(book.balance, book.reservations)
    {
      FillStep(fills, i);
      ReleasesGrow(fills, i);
      ReleasesGrow(fills, i + 1);
      TotalCovers(book, order);
      var draw := book.SettleBuyFill(order, fills[i].cost, fills[i].release, now);
      assert book.reservations - {order} == table;
    }
    assert fills[..|fills|] == fills;
  }

  /** Reserve, fill, release: the identity is kept to the end, the book has paid exactly the fills, and
  the table is what it was. */
  method OrderLife(book: Book, order: string, notional: real, fills: seq<Fill>, now: int) returns (r: Result<(), Refusal>)
    requires book.Valid() && Balanced(book.balance, book.reservations) && order !in book.reservations
    requires WithinLimit(fills) && Releases(fills) <= notional
    modifies book
    ensures book.Valid() && Balanced(book.balance, book.reservations) && book.reservations == old(book.reservations)
    ensures r.Ok? <==> 0.0 <= notional <= Available(old(book.balance), old(book.reservations))
    ensures book.balance == old(book.balance) - if r.Ok? then Costs(fills) else 0.0
  {
    hide Costs, Releases, Book.Valid;
    ghost var table := book.reservations;
    ReleasesGrow(fills, |fills|);
    assert fills[..|fills|] == fills;
    r := PlaceAndFill(book, order, notional, fills, now);
    if r.Ok? {
      TotalCovers(book, order);
      var released := book.Release(order);
      assert book.reservations == table;
    }
  }

  lemma NoFills()
    ensures Costs([]) == 0.0 && Releases([]) == 0.0
  {
  }

  lemma FillStep(fills: seq<Fill>, i: nat)
    requires i < |fills|
    ensures Costs(fills[..i + 1]) == Costs(fills[..i]) + fills[i].cost
    ensures Releases(fills[..i + 1]) == Releases(fills[..i]) + fills[i].release
  {
    assert fills[..i + 1][..i] == fills[..i];
  }

  lemma TotalCovers(book: Book, order: string)
    requires book.Valid()
    ensures Total(book.reservations) >= Held(book.reservations, order)
  {
    if order in book.reservations {
      TotalWithout(book.reservations, order);
      TotalNonNegative(book.reservations - {order});
    } else {
      TotalNonNegative(book.reservations);
    }
  }

  /** A restart: the file replays into a book with the same balance and the same window. */
  method Restart(book: Book) returns (next: Book)
    requires book.Valid() && book.persists
    ensures fresh(next) && next.Valid() && next.persists && next.file == book.file
    ensures next.balance == book.balance == Sum(book.file) && next.journal == book.journal
  {
    SumIsBalance(book.file);
    next := new Book.Boot(book.file);
  }

  // ---------- whole runs ----------

  datatype Op =
    | DoSeed(target: real) | DoRealign(target: real) | DoVenueReport(target: real) | DoResetToSeed(seed: real)
    | DoCredit(kind: Kind, amount: real, ref: string) | DoSell(proceeds: real, fee: real) | DoFee(fee: real)
    | DoReserve(order: string, notional: real) | DoRelease(order: string) | DoSync(order: string, remaining: real)
    | DoFill(order: string, cost: real, release: real) | DoResetAccount(seed: real)

  method Perform(book: Book, op: Op, now: int)
    requires book.Valid()
    modifies book
    ensures book.Valid() && book.persists == old(book.persists)
  {
    hide Book.Valid;
    match op {
      case DoSeed(target) => book.SeedTo(target, now);
      case DoRealign(target) => book.SetBalance(target, now);
      case DoVenueReport(target) => book.ApplyVenueReport(target, now);
      case DoResetToSeed(seed) => book.ResetToSeed(seed, now);
      case DoCredit(kind, amount, ref) => book.Credit(kind, amount, ref, now);
      case DoSell(proceeds, fee) => book.SettleSellFill(proceeds, fee, now);
      case DoFee(fee) => book.ChargeFee(fee, now);
      case DoReserve(order, notional) => var r := book.Reserve(order, notional);
      case DoRelease(order) => var released := book.Release(order);
      case DoSync(order, remaining) => var prev := book.SyncBuyReservation(order, remaining);
      case DoFill(order, cost, release) => var draw := book.SettleBuyFill(order, cost, release, now);
      case DoResetAccount(seed) => book.ResetAccountToSeed(seed, now);
    }
  }

  /** Any run of operations on a book with a durable file: the balance is never negative and is the
  sum of the file's amounts, the file's rows chain, memory holds its newest rows, and a restart at
  the end finds the same balance and the same window. */
  method RunAll(book: Book, ops: seq<(Op, int)>) returns (next: Book)
    requires book.Valid() && book.persists
    modifies book
    ensures book.Valid() && book.balance == Sum(book.file) >= 0.0
    ensures Chained(book.file) && book.journal == Window(book.file)
    ensures fresh(next) && next.Valid() && next.balance == book.balance && next.journal == book.journal
  {
    for i := 0 to |ops|
      invariant book.Valid() && book.persists
    {
      hide Book.Valid;
      Perform(book, ops[i].0, ops[i].1);
    }
    next := Restart(book);
  }
}

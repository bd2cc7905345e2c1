/**
 * The top-of-book order book exercised by tests/test_orderbook.py: two sides,
 * each a map from price to quantity, with upserts, a wholesale book-ticker
 * replacement, and best bid/ask queries that are recomputed from the live keys.
 */
module OrderBooks {

  import opened Wrappers

  /** One side of the book: price -> quantity. */
  type Side = map<real, real>

  /** A level exists only with a positive quantity (absence, never a zero entry). */
  ghost predicate Positive(side: Side)
  {
    forall p :: p in side ==> side[p] > 0.0
  }

  /** `r` is what best bid reports for `bids`: the highest price present, or 0 when the side is empty. */
  ghost predicate IsBestBid(bids: Side, r: real)
  {
    if bids == map[] then r == 0.0 else r in bids && forall p :: p in bids ==> p <= r
  }

  /** `r` is what best ask reports for `asks`: the lowest price present, or 0 when the side is empty. */
  ghost predicate IsBestAsk(asks: Side, r: real)
  {
    if asks == map[] then r == 0.0 else r in asks && forall p :: p in asks ==> r <= p
  }

  /** One level update: a positive quantity inserts or overwrites the level, any other removes it. */
  function Upsert(side: Side, price: real, qty: real): (r: Side)
    ensures qty > 0.0 ==> price in r && r[price] == qty
    ensures qty <= 0.0 ==> price !in r
    ensures forall p :: p != price ==> (p in r <==> p in side)
    ensures forall p :: p in r && p != price ==> r[p] == side[p]
    ensures Positive(side) ==> Positive(r)
  {
    if qty > 0.0 then side[price := qty] else side - {price}
  }

  /** The side a book-ticker update installs: the single reported level, if its quantity is positive. */
  function TickerSide(price: real, qty: real): (r: Side)
    ensures qty > 0.0 ==> r == map[price := qty]
    ensures qty <= 0.0 ==> r == map[]
  {
    Upsert(map[], price, qty)
  }

  /** A run of `(price, quantity)` updates applied to a side, oldest first. */
  function UpsertAll(side: Side, updates: seq<(real, real)>): Side
  {
    if updates == [] then side
    else
      var u := updates[|updates| - 1];
      Upsert(UpsertAll(side, updates[..|updates| - 1]), u.0, u.1)
  }

  /** The quantity of the most recent update at `price` in `updates`, if there is one. */
  function LastUpdateAt(updates: seq<(real, real)>, price: real): (r: Option<real>)
  {
    if updates == [] then None
    else if updates[|updates| - 1].0 == price then Some(updates[|updates| - 1].1)
    else LastUpdateAt(updates[..|updates| - 1], price)
  }

  /**
   * After any run of updates a price is present exactly when its latest update was
   * positive (or, never updated, it was present before), and it holds that latest quantity.
   */
  lemma {:induction false} UpsertAllLevels(side: Side, updates: seq<(real, real)>, price: real)
    ensures LastUpdateAt(updates, price).Some? ==>
      (price in UpsertAll(side, updates) <==> LastUpdateAt(updates, price).value > 0.0)
    ensures LastUpdateAt(updates, price).Some? && price in UpsertAll(side, updates) ==>
      UpsertAll(side, updates)[price] == LastUpdateAt(updates, price).value
    ensures LastUpdateAt(updates, price).None? ==>
      (price in UpsertAll(side, updates) <==> price in side) &&
      (price in side ==> UpsertAll(side, updates)[price] == side[price])
  {
    if updates != [] {
      UpsertAllLevels(side, updates[..|updates| - 1], price);
    }
  }

  /** Every level the book holds after any run of updates has a positive quantity. */
  lemma {:induction false} UpsertAllPositive(side: Side, updates: seq<(real, real)>)
    requires Positive(side)
    ensures Positive(UpsertAll(side, updates))
  {
    if updates != [] {
      UpsertAllPositive(side, updates[..|updates| - 1]);
    }
  }

  /**
   * Removing the current best bid leaves the best of the remaining levels as the
   * new best: nothing above it survives, and the old best is not reported again.
   */
  lemma RemovingBestBid(bids: Side, best: real, next: real)
    requires bids != map[] && IsBestBid(bids, best)
    requires IsBestBid(Upsert(bids, best, 0.0), next)
    ensures bids.Keys == {best} ==> next == 0.0
    ensures bids.Keys != {best} ==> next in bids && next < best
    ensures forall p :: p in bids && p != best ==> p <= next
  {
    var rest := Upsert(bids, best, 0.0);
    if bids.Keys != {best} {
      var q :| q in bids.Keys && q != best;
      assert q in rest;
    }
  }

  /** Removing the current best ask leaves the lowest remaining ask as the new best. */
  lemma RemovingBestAsk(asks: Side, best: real, next: real)
    requires asks != map[] && IsBestAsk(asks, best)
    requires IsBestAsk(Upsert(asks, best, 0.0), next)
    ensures asks.Keys == {best} ==> next == 0.0
    ensures asks.Keys != {best} ==> next in asks && best < next
    ensures forall p :: p in asks && p != best ==> next <= p
  {
    var rest := Upsert(asks, best, 0.0);
    if asks.Keys != {best} {
      var q :| q in asks.Keys && q != best;
      assert q in rest;
    }
  }

  /** A non-empty set of prices has a member to pick. */
  lemma HasElement(s: set<real>)
    requires s != {}
    ensures exists x :: x in s
  {
    if forall x :: x !in s {
      assert false;
    }
  }

  class OrderBook {
    var bids: Side
    var asks: Side

    ghost predicate Valid()
      reads this
    {
      Positive(bids) && Positive(asks)
    }

    /** A fresh book has no levels on either side. */
    constructor ()
      ensures Valid()
      ensures bids == map[] && asks == map[]
    {
      bids := map[];
      asks := map[];
    }

    /** `update_bid(price, quantity)`. */
    method UpdateBid(price: real, qty: real)
      requires Valid()
      modifies this
      ensures Valid()
      ensures bids == Upsert(old(bids), price, qty) && asks == old(asks)
    {
      bids := Upsert(bids, price, qty);
    }

    /** `update_ask(price, quantity)`. */
    method UpdateAsk(price: real, qty: real)
      requires Valid()
      modifies this
      ensures Valid()
      ensures asks == Upsert(old(asks), price, qty) && bids == old(bids)
    {
      asks := Upsert(asks, price, qty);
    }

    /** `update_from_book_ticker({b, B, a, A})`: clear both sides, then install the reported level on each. */
    method UpdateFromBookTicker(b: real, bQty: real, a: real, aQty: real)
      requires Valid()
      modifies this
      ensures Valid()
      ensures bids == TickerSide(b, bQty) && asks == TickerSide(a, aQty)
    {
      bids := map[];
      asks := map[];
      bids := Upsert(bids, b, bQty);
      asks := Upsert(asks, a, aQty);
    }

    /** `get_bids()`: the bid levels, every one with a positive quantity. */
    method GetBids() returns (r: Side)
      requires Valid()
      ensures r == bids && Positive(r)
    {
      r := bids;
    }

    /** `get_asks()`: the ask levels, every one with a positive quantity. */
    method GetAsks() returns (r: Side)
      requires Valid()
      ensures r == asks && Positive(r)
    {
      r := asks;
    }

    /** `get_bid_quantity(price)`: the stored quantity, or 0 exactly when no level sits at `price`. */
    method GetBidQuantity(price: real) returns (q: real)
      requires Valid()
      ensures price in bids ==> q == bids[price]
      ensures q == 0.0 <==> price !in bids
    {
      q := if price in bids then bids[price] else 0.0;
    }

    /** `get_ask_quantity(price)`: the stored quantity, or 0 exactly when no level sits at `price`. */
    method GetAskQuantity(price: real) returns (q: real)
      requires Valid()
      ensures price in asks ==> q == asks[price]
      ensures q == 0.0 <==> price !in asks
    {
      q := if price in asks then asks[price] else 0.0;
    }

    /** `get_best_bid()`: recomputed from the live price keys on every call. */
    method GetBestBid() returns (best: real)
      ensures IsBestBid(bids, best)
    {
      best := 0.0;
      var found := false;
      var todo := bids.Keys;
      while todo != {}
        invariant todo <= bids.Keys
        invariant found <==> todo != bids.Keys
        invariant !found ==> best == 0.0
        invariant found ==> best in bids
        invariant forall p :: p in bids && p !in todo ==> p <= best
        decreases todo
      {
        HasElement(todo);
        var price :| price in todo;
        if !found || price > best {
          best := price;
        }
        found := true;
        todo := todo - {price};
      }
    }

    /** `get_best_ask()`: recomputed from the live price keys on every call. */
    method GetBestAsk() returns (best: real)
      ensures IsBestAsk(asks, best)
    {
      best := 0.0;
      var found := false;
      var todo := asks.Keys;
      while todo != {}
        invariant todo <= asks.Keys
        invariant found <==> todo != asks.Keys
        invariant !found ==> best == 0.0
        invariant found ==> best in asks
        invariant forall p :: p in asks && p !in todo ==> best <= p
        decreases todo
      {
        HasElement(todo);
        var price :| price in todo;
        if !found || price < best {
          best := price;
        }
        found := true;
        todo := todo - {price};
      }
    }
  }

  /** A fresh book reports no levels and 0 for both best prices (test_initial_book_is_empty). */
  method FreshBook() returns (bids: Side, asks: Side, bestBid: real, bestAsk: real)
    ensures bids == map[] && asks == map[]
    ensures bestBid == 0.0 && bestAsk == 0.0
  {
    var book := new OrderBook();
    bids := book.GetBids();
    asks := book.GetAsks();
    bestBid := book.GetBestBid();
    bestAsk := book.GetBestAsk();
  }

  /** One bid at `price` on an empty book is the only level, holds `qty`, and is the best bid (test_add_bid). */
  method AddOneBid(price: real, qty: real) returns (bids: Side, q: real, best: real)
    requires qty > 0.0
    ensures bids == map[price := qty] && |bids| == 1
    ensures q == qty && best == price
  {
    var book := new OrderBook();
    book.UpdateBid(price, qty);
    bids := book.GetBids();
    q := book.GetBidQuantity(price);
    best := book.GetBestBid();
  }

  /** A second update at the same price overwrites, and a zero update removes the key (test_update_*, test_remove_*). */
  method OverwriteThenRemoveAsk(price: real, q1: real, q2: real) returns (afterOverwrite: real, afterRemove: real, asks: Side)
    requires q1 > 0.0 && q2 > 0.0
    ensures afterOverwrite == q2
    ensures afterRemove == 0.0 && price !in asks && asks == map[]
  {
    var book := new OrderBook();
    book.UpdateAsk(price, q1);
    book.UpdateAsk(price, q2);
    afterOverwrite := book.GetAskQuantity(price);
    book.UpdateAsk(price, 0.0);
    afterRemove := book.GetAskQuantity(price);
    asks := book.GetAsks();
  }

  /** Removing the higher of two bids makes the lower one best again (test_best_bid_after_removal). */
  method BestBidAfterRemoval(price: real, qty: real) returns (best: real)
    requires price >= 1.1 && qty > 0.0
    ensures best == price - 1.0
  {
    var book := new OrderBook();
    book.UpdateBid(price - 1.0, qty + 1.0);
    book.UpdateBid(price, qty);
    book.UpdateBid(price, 0.0);
    best := book.GetBestBid();
  }

  /** Removing the lower of two asks makes the higher one best again (test_best_ask_after_removal). */
  method BestAskAfterRemoval(price: real, qty: real) returns (best: real)
    requires qty > 0.0
    ensures best == price + 1.0
  {
    var book := new OrderBook();
    book.UpdateAsk(price + 1.0, qty + 1.0);
    book.UpdateAsk(price, qty);
    book.UpdateAsk(price, 0.0);
    best := book.GetBestAsk();
  }

  /** A book ticker wipes the earlier manual levels and leaves exactly the reported ones (test_update_from_book_ticker_clears_previous_top). */
  method BookTickerClearsPreviousTop() returns (bids: Side, asks: Side, bestBid: real, bestAsk: real)
    ensures bids == map[100.5 := 12.0] && asks == map[101.5 := 6.0]
    ensures bestBid == 100.5 && bestAsk == 101.5
  {
    var book := new OrderBook();
    book.UpdateBid(100.0, 10.0);
    book.UpdateAsk(101.0, 5.0);
    book.UpdateFromBookTicker(100.5, 12.0, 101.5, 6.0);
    bids := book.GetBids();
    asks := book.GetAsks();
    bestBid := book.GetBestBid();
    bestAsk := book.GetBestAsk();
  }
}

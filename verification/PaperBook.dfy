/** The life of a synthetic ladder: built, stale, purged, orphaned. Any redis command may be
    refused, or take effect and still fail. What the display is told about a ladder stays
    honest through all of it; the gate that skips a purge does not. */
module PaperBook {
  import opened PaperRows
  import opened Options

  const LADDER_STALE_MS: int := 15000
  const ORPHAN_MS: int := 30000

  // ---------------------------------------------------------------- what a ladder can absorb

  predicate Usable(o: Order) { o.quantity > 0.0 && o.price > 0.0 }

  function BaseOf(orders: seq<Order>): real {
    if orders == [] then 0.0
    else
      var o := orders[|orders| - 1];
      BaseOf(orders[..|orders| - 1]) + if Usable(o) then o.quantity else 0.0
  }

  function QuoteOf(orders: seq<Order>): real {
    if orders == [] then 0.0
    else
      var o := orders[|orders| - 1];
      QuoteOf(orders[..|orders| - 1]) + if Usable(o) then o.quantity * o.price else 0.0
  }

  method LadderCapacity(orders: seq<Order>) returns (quantity: real, notional: real)
    ensures quantity == BaseOf(orders) && notional == QuoteOf(orders)
  {
    quantity, notional := 0.0, 0.0;
    for n := 0 to |orders|
      invariant quantity == BaseOf(orders[..n]) && notional == QuoteOf(orders[..n])
    {
      assert orders[..n + 1][..n] == orders[..n];
      if Usable(orders[n]) {
        quantity := quantity + orders[n].quantity;
        notional := notional + orders[n].quantity * orders[n].price;
      }
    }
    assert orders[..|orders|] == orders;
  }

  predicate Better(side: Side, a: real, b: real) { if side == Buy then a > b else a < b }

  function Best(orders: seq<Order>, side: Side): Option<real> {
    if orders == [] then None
    else
      var price := orders[|orders| - 1].price;
      var best := Best(orders[..|orders| - 1], side);
      if price > 0.0 && (best.None? || Better(side, price, best.value)) then Some(price) else best
  }

  /** The best price is a positive price of the side that none beats; there is none only when no
      price is positive. */
  lemma {:induction false} BestIsExtreme(orders: seq<Order>, side: Side)
    ensures match Best(orders, side)
            case None => forall i | 0 <= i < |orders| :: orders[i].price <= 0.0
            case Some(best) =>
              && best > 0.0
              && (exists i :: 0 <= i < |orders| && orders[i].price == best)
              && forall i | 0 <= i < |orders| && orders[i].price > 0.0 :: !Better(side, orders[i].price, best)
  {
    if orders != [] {
      var n := |orders| - 1;
      BestIsExtreme(orders[..n], side);
      forall i | 0 <= i < |orders| ensures i < n ==> orders[i] == orders[..n][i] {}
      assert Best(orders[..n], side).Some? ==>
          exists i :: 0 <= i < n && orders[..n][i].price == Best(orders[..n], side).value;
    }
  }

  method LadderBestPrice(orders: seq<Order>, side: Side) returns (best: Option<real>)
    ensures best == Best(orders, side)
  {
    best := None;
    for n := 0 to |orders|
      invariant best == Best(orders[..n], side)
    {
      assert orders[..n + 1][..n] == orders[..n];
      var price := orders[n].price;
      if price > 0.0 && (best.None? || Better(side, price, best.value)) {
        best := Some(price);
      }
    }
    assert orders[..|orders|] == orders;
  }

  // ---------------------------------------------------------------- what the display is told

  datatype Verdict = Verdict(present: bool, reason: string, at: int, buy: nat, sell: nat,
                             buyQuantity: real, buyNotional: real, sellQuantity: real, sellNotional: real,
                             bestBuy: Option<real>, bestSell: Option<real>)

  /** No ladder: no capacity, and nothing to cross. */
  function Absent(at: int, reason: string): Verdict {
    Verdict(false, reason, at, 0, 0, 0.0, 0.0, 0.0, 0.0, None, None)
  }

  /** A completed write of these orders. */
  function Built(at: int, buys: seq<Order>, sells: seq<Order>): Verdict {
    var some := |buys| + |sells| > 0;
    Verdict(some, if some then "" else "ladder_not_built", at, |buys|, |sells|,
            BaseOf(buys), QuoteOf(buys), BaseOf(sells), QuoteOf(sells), Best(buys, Buy), Best(sells, Sell))
  }

  /** The last thing that happened to a pair's ladder. */
  datatype Event = Synced(at: int, buys: seq<Order>, sells: seq<Order>) | Gone(at: int, reason: string)

  function Told(e: Event): Verdict {
    match e
    case Synced(at, buys, sells) => Built(at, buys, sells)
    case Gone(at, reason) => Absent(at, reason)
  }

  lemma TellGone(at: int, reason: string)
    ensures Told(Gone(at, reason)) == Absent(at, reason)
  {}

  // ---------------------------------------------------------------- told and resting

  /** What one stored row can absorb, in base or in quote. */
  function Absorbs(r: Row, quote: bool): real {
    if r.Parsed? && r.price > 0.0 && r.quantity > 0.0 then (if quote then r.quantity * r.price else r.quantity) else 0.0
  }

  ghost function Resting(rows: Rows, slots: set<Slot>, quote: bool): real
    requires slots <= rows.Keys
  {
    if slots == {} then 0.0
    else
      var s :| s in slots;
      Resting(rows, slots - {s}, quote) + Absorbs(rows[s], quote)
  }

  lemma {:induction false} RestingWithout(rows: Rows, slots: set<Slot>, s: Slot, quote: bool)
    requires s in slots && slots <= rows.Keys
    ensures Resting(rows, slots, quote) == Resting(rows, slots - {s}, quote) + Absorbs(rows[s], quote)
    decreases |slots|
  {
    var t :| t in slots && Resting(rows, slots, quote) == Resting(rows, slots - {t}, quote) + Absorbs(rows[t], quote);
    if t != s {
      RestingWithout(rows, slots - {t}, s, quote);
      RestingWithout(rows, slots - {s}, t, quote);
      assert slots - {t} - {s} == slots - {s} - {t};
    }
  }

  /** One side of a verdict is what the pair's synthetic rows of that hash hold: how many there
      are, what they can absorb, and the price none of them beats. */
  ghost predicate TellsHash(rows: Rows, side: Side, p: Pair, n: nat, base: real, quote: real, best: Option<real>) {
    var slots := set s | s in PaperSlots(rows, p) && s.side == side;
    && n == |slots|
    && base == Resting(rows, slots, false)
    && quote == Resting(rows, slots, true)
    && match best
       case None => forall s | s in slots :: rows[s].price <= 0.0
       case Some(b) =>
         && b > 0.0
         && (exists s :: s in slots && rows[s].price == b)
         && forall s | s in slots && rows[s].price > 0.0 :: if side == Buy then rows[s].price <= b else rows[s].price >= b
  }

  function SlotsOf(side: Side, p: Pair, orders: seq<Order>): set<Slot> {
    set i | 0 <= i < |orders| :: SlotOf(side, p, orders[i])
  }

  predicate Apart(orders: seq<Order>) { forall i, j | 0 <= i < j < |orders| :: orders[i].id != orders[j].id }

  lemma SlotsOneMore(side: Side, p: Pair, orders: seq<Order>)
    requires orders != [] && Apart(orders)
    ensures var n := |orders| - 1;
            var init, last := SlotsOf(side, p, orders[..n]), SlotOf(side, p, orders[n]);
            SlotsOf(side, p, orders) == init + {last} && last !in init && Apart(orders[..n])
  {
    var n := |orders| - 1;
    forall i | 0 <= i < n ensures orders[i] == orders[..n][i] && SlotOf(side, p, orders[i]) in SlotsOf(side, p, orders[..n]) {
      assert SlotOf(side, p, orders[..n][i]) in SlotsOf(side, p, orders[..n]);
    }
  }

  lemma RestsButLast(rows: Rows, side: Side, p: Pair, orders: seq<Order>)
    requires orders != [] && Rests(rows, side, p, orders)
    ensures Rests(rows, side, p, orders[..|orders| - 1])
    ensures Shows(rows, SlotOf(side, p, orders[|orders| - 1]), orders[|orders| - 1])
  {
    hide Shows;
    var n := |orders| - 1;
    forall i | 0 <= i < n ensures Shows(rows, SlotOf(side, p, orders[..n][i]), orders[..n][i]) {
      assert Shows(rows, SlotOf(side, p, orders[i]), orders[i]);
    }
  }

  lemma NoSlots(side: Side, p: Pair)
    ensures SlotsOf(side, p, []) == {}
  {}

  lemma StoredWhereShown(rows: Rows, s: Slot, o: Order)
    requires Shows(rows, s, o)
    ensures s in rows
  {}

  lemma AbsorbedByOne(rows: Rows, s: Slot, o: Order)
    requires Shows(rows, s, o)
    ensures Absorbs(rows[s], false) == if Usable(o) then o.quantity else 0.0
    ensures Absorbs(rows[s], true) == if Usable(o) then o.quantity * o.price else 0.0
  {}

  lemma {:induction false} SumsOfSlots(rows: Rows, side: Side, p: Pair, orders: seq<Order>)
    requires Rests(rows, side, p, orders) && Apart(orders)
    ensures var slots := SlotsOf(side, p, orders);
            && slots <= rows.Keys && |slots| == |orders|
            && BaseOf(orders) == Resting(rows, slots, false)
            && QuoteOf(orders) == Resting(rows, slots, true)
  {
    hide Shows, Apart, SlotsOf, Rests, Absorbs;
    if orders == [] {
      assert SlotsOf(side, p, orders) == {} by { NoSlots(side, p); }
    } else {
      var n := |orders| - 1;
      var last := SlotOf(side, p, orders[n]);
      var slots := SlotsOf(side, p, orders);
      SlotsOneMore(side, p, orders);
      RestsButLast(rows, side, p, orders);
      SumsOfSlots(rows, side, p, orders[..n]);
      assert slots - {last} == SlotsOf(side, p, orders[..n]);
      StoredWhereShown(rows, last, orders[n]);
      AbsorbedByOne(rows, last, orders[n]);
      RestingWithout(rows, slots, last, false);
      RestingWithout(rows, slots, last, true);
    }
  }

  lemma HashHoldsSide(rows: Rows, side: Side, p: Pair, buys: seq<Order>, sells: seq<Order>)
    requires LadderIs(rows, p, buys, sells)
    ensures (set s | s in PaperSlots(rows, p) && s.side == side) == SlotsOf(side, p, if side == Buy then buys else sells)
  {
    var orders := if side == Buy then buys else sells;
    forall s ensures (s in PaperSlots(rows, p) && s.side == side) <==> s in SlotsOf(side, p, orders) {
      if s in PaperSlots(rows, p) && s.side == side {
        assert IsNew(p, buys, sells, s);
        var i :| 0 <= i < |orders| && orders[i].id == s.field;
        assert s == SlotOf(side, p, orders[i]);
      }
      if s in SlotsOf(side, p, orders) {
        var i :| 0 <= i < |orders| && s == SlotOf(side, p, orders[i]);
        assert Shows(rows, s, orders[i]);
      }
    }
  }

  lemma SideTold(rows: Rows, side: Side, p: Pair, buys: seq<Order>, sells: seq<Order>)
    requires LadderIs(rows, p, buys, sells)
    requires Apart(if side == Buy then buys else sells)
    ensures var orders := if side == Buy then buys else sells;
            TellsHash(rows, side, p, |orders|, BaseOf(orders), QuoteOf(orders), Best(orders, side))
  {
    hide Resting, BaseOf, QuoteOf, Best;
    var orders := if side == Buy then buys else sells;
    SumsOfSlots(rows, side, p, orders);
    HashHoldsSide(rows, side, p, buys, sells);
    BestIsExtreme(orders, side);
    forall i | 0 <= i < |orders| ensures Shows(rows, SlotOf(side, p, orders[i]), orders[i]) {}
    forall i | 0 <= i < |orders| ensures SlotOf(side, p, orders[i]) in SlotsOf(side, p, orders) {}
    if Best(orders, side).Some? {
      var i :| 0 <= i < |orders| && orders[i].price == Best(orders, side).value;
      assert rows[SlotOf(side, p, orders[i])].price == Best(orders, side).value;
    }
  }

  /** What a completed write tells the display is what then rests in the hashes: on either side
      the number of the pair's synthetic rows, the base and the quote they can absorb and their
      best price; and a ladder is present exactly when some synthetic row is. */
  lemma ToldIsWhatRests(rows: Rows, p: Pair, at: int, buys: seq<Order>, sells: seq<Order>)
    requires LadderIs(rows, p, buys, sells)
    requires forall i, j | 0 <= i < j < |buys| :: buys[i].id != buys[j].id
    requires forall i, j | 0 <= i < j < |sells| :: sells[i].id != sells[j].id
    ensures var v := Told(Synced(at, buys, sells));
            && v.at == at
            && (v.present <==> PaperSlots(rows, p) != {})
            && v.reason == (if v.present then "" else "ladder_not_built")
            && TellsHash(rows, Buy, p, v.buy, v.buyQuantity, v.buyNotional, v.bestBuy)
            && TellsHash(rows, Sell, p, v.sell, v.sellQuantity, v.sellNotional, v.bestSell)
  {
    hide TellsHash, BaseOf, QuoteOf, Best, LadderIs;
    SideTold(rows, Buy, p, buys, sells);
    SideTold(rows, Sell, p, buys, sells);
    HashHoldsSide(rows, Buy, p, buys, sells);
    HashHoldsSide(rows, Sell, p, buys, sells);
    assert |buys| > 0 ==> SlotOf(Buy, p, buys[0]) in SlotsOf(Buy, p, buys);
    assert |sells| > 0 ==> SlotOf(Sell, p, sells[0]) in SlotsOf(Sell, p, sells);
    forall s | s in PaperSlots(rows, p) ensures s in SlotsOf(Buy, p, buys) || s in SlotsOf(Sell, p, sells) {
      assert s.side == Buy || s.side == Sell;
    }
  }

  /** So a refresh from fresh ids records exactly the ladder it left, whatever lay there before. */
  lemma RecordedIsWhatRests(rows: Rows, p: Pair, previous: seq<Id>, at: int, buys: seq<Order>, sells: seq<Order>)
    requires forall s | s in rows && s.pair == p :: s.field !in Ids(buys) + Ids(sells)
    requires forall s | s in PaperSlots(rows, p) :: rows[s].id !in Ids(buys) + Ids(sells)
    requires forall s | s in rows && s.pair == p && s.field in previous :: IsPaper(rows[s])
    requires forall i, j | 0 <= i < j < |buys| :: buys[i].id != buys[j].id
    requires forall i, j | 0 <= i < j < |sells| :: sells[i].id != sells[j].id
    ensures var r, v := Refreshed(rows, p, previous, buys, sells), Built(at, buys, sells);
            && TellsHash(r, Buy, p, v.buy, v.buyQuantity, v.buyNotional, v.bestBuy)
            && TellsHash(r, Sell, p, v.sell, v.sellQuantity, v.sellNotional, v.bestSell)
            && (v.present <==> PaperSlots(r, p) != {})
  {
    hide TellsHash, Built, LadderIs, Refreshed, PaperSlots;
    FreshIdsReplaceExactly(rows, p, previous, buys, sells);
    ToldIsWhatRests(Refreshed(rows, p, previous, buys, sells), p, at, buys, sells);
    TellSynced(at, buys, sells);
  }

  // ---------------------------------------------------------------- redis

  /** A command is carried out, refused, or carried out with the reply lost. */
  datatype Reply = Done | Refused | Lost

  /** The commands numbered from `from` up to `to` all succeeded. */
  predicate Up(replies: nat -> Reply, from: nat, to: nat) {
    forall i | from <= i < to :: replies(i) == Done
  }

  /** A run of `n` commands that stops at the first failure. */
  predicate Ran(replies: nat -> Reply, from: nat, to: nat, n: nat, ok: bool) {
    if ok then to == from + n && Up(replies, from, to)
    else from < to <= from + n && Up(replies, from, to - 1) && replies(to - 1) != Done
  }

  lemma RanThen(replies: nat -> Reply, a: nat, b: nat, c: nat, n: nat, m: nat, ok: bool)
    requires Ran(replies, a, b, n, true) && Ran(replies, b, c, m, ok)
    ensures Ran(replies, a, c, n + m, ok)
  {}

  lemma FirstWorked(replies: nat -> Reply, a: nat, b: nat, n: nat)
    requires Ran(replies, a, b, n, true) && n > 0
    ensures replies(a).Done?
  {}

  lemma FailsLast(replies: nat -> Reply, a: nat, b: nat, n: nat)
    requires Ran(replies, a, b, n, false)
    ensures a < b && replies(b - 1) != Done
  {}

  lemma RanShort(replies: nat -> Reply, a: nat, b: nat, n: nat, m: nat)
    requires Ran(replies, a, b, n, false) && n <= m
    ensures Ran(replies, a, b, m, false)
  {}

  /** Nothing changed or appeared, and what went belonged to the pair and was synthetic or named. */
  predicate Shrunk(before: Rows, after: Rows, p: Pair, named: seq<Id>) {
    && (forall s | s in after :: Stored(before, s, after[s]))
    && (forall s | s in before && s !in after :: s.pair == p && (s.field in named || IsPaper(before[s])))
  }

  /** No order of another pair, and no user's order outside the fields that are deleted by name
      or written, has moved; and whatever appeared is a synthetic order of the pair. */
  predicate OthersKept(before: Rows, after: Rows, p: Pair, named: seq<Id>, buys: seq<Order>, sells: seq<Order>) {
    && (forall s | s in before
                   && (s.pair != p || (!IsPaper(before[s]) && s.field !in named && !IsNew(p, buys, sells, s))) ::
          Stored(after, s, before[s]))
    && (forall s | s in after && (s.pair != p || !IsPaper(after[s])) :: Stored(before, s, after[s]))
  }

  function Without(rows: Rows, gone: set<Slot>): Rows { rows - gone }

  lemma Deleting(rows: Rows, gone: set<Slot>, p: Pair)
    requires gone <= PaperSlots(rows, p)
    ensures Shrunk(rows, Without(rows, gone), p, [])
    ensures gone == {} ==> Without(rows, gone) == rows
  {}

  lemma DeleteOneMore(rows: Rows, gone: set<Slot>, s: Slot)
    ensures Without(Without(rows, gone), {s}) == Without(rows, gone + {s})
  {}

  /** The deletions a claim was exposed to, when rows went from `before` to `after`. */
  function Exposure(claimed: bool, exposed: set<Slot>, before: Rows, after: Rows): set<Slot> {
    if claimed then exposed + (before.Keys - after.Keys) else exposed
  }

  lemma ExposeNone(claimed: bool, exposed: set<Slot>, rows: Rows)
    ensures Exposure(claimed, exposed, rows, rows) == exposed
  {}

  lemma ExposeMore(claimed: bool, exposed: set<Slot>, a: Rows, b: Rows, c: Rows)
    requires c.Keys <= b.Keys <= a.Keys
    ensures Exposure(claimed, Exposure(claimed, exposed, a, b), b, c) == Exposure(claimed, exposed, a, c)
  {}

  lemma ShrunkKeys(before: Rows, after: Rows, p: Pair, named: seq<Id>)
    requires Shrunk(before, after, p, named)
    ensures after.Keys <= before.Keys
  {
    forall s | s in after.Keys ensures s in before.Keys {
      assert Stored(before, s, after[s]);
    }
  }

  lemma WithoutKeys(rows: Rows, gone: set<Slot>)
    ensures Without(rows, gone).Keys <= rows.Keys
  {}

  function SideSlots(rows: Rows, side: Side, p: Pair): set<Slot> {
    set s | s in rows && s.side == side && s.pair == p
  }

  /** The stale slots that a scan with `todo` left to visit has deleted. */
  function Visited(rows: Rows, side: Side, p: Pair, keep: set<Id>, todo: set<Slot>): set<Slot> {
    StaleSlots(rows, side, p, keep) - todo
  }

  lemma VisitNone(rows: Rows, side: Side, p: Pair, keep: set<Id>)
    ensures Visited(rows, side, p, keep, SideSlots(rows, side, p)) == {}
    ensures Without(rows, {}) == rows
    ensures Shrunk(rows, rows, p, [])
  {}

  lemma VisitedAreStale(rows: Rows, side: Side, p: Pair, keep: set<Id>, todo: set<Slot>)
    ensures Visited(rows, side, p, keep, todo) <= StaleSlots(rows, side, p, keep) <= PaperSlots(rows, p)
  {}

  lemma VisitAll(rows: Rows, side: Side, p: Pair, keep: set<Id>)
    ensures Visited(rows, side, p, keep, {}) == StaleSlots(rows, side, p, keep)
    ensures Shrunk(rows, Without(rows, StaleSlots(rows, side, p, keep)), p, [])
  {}

  /** One more slot of a scan is visited: either it is stale and goes, or it stays. */
  lemma VisitOne(rows: Rows, side: Side, p: Pair, keep: set<Id>, todo: set<Slot>, s: Slot)
    requires s in todo && todo <= SideSlots(rows, side, p)
    ensures s in rows && s.pair == p
    ensures var gone, next := Visited(rows, side, p, keep, todo), Visited(rows, side, p, keep, todo - {s});
            if IsPaper(rows[s]) && rows[s].id !in keep
            then && next == gone + {s} && next <= PaperSlots(rows, p) && s !in gone
                 && |next| == |gone| + 1 <= |StaleSlots(rows, side, p, keep)|
            else next == gone
  {
    SubsetSize(Visited(rows, side, p, keep, todo - {s}), StaleSlots(rows, side, p, keep));
  }

  lemma ShrunkTwice(a: Rows, b: Rows, c: Rows, p: Pair, named: seq<Id>)
    requires Shrunk(a, b, p, named) && Shrunk(b, c, p, named)
    ensures Shrunk(a, c, p, named)
  {
    forall s | s in c ensures Stored(a, s, c[s]) {
      assert Stored(b, s, c[s]);
    }
  }

  lemma PaperOfBothSides(rows: Rows, p: Pair)
    ensures var bought := Without(rows, StaleSlots(rows, Buy, p, {}));
            && Without(bought, StaleSlots(bought, Sell, p, {})) == Without(rows, PaperSlots(rows, p))
            && PaperSlots(rows, p) == StaleSlots(rows, Buy, p, {}) + StaleSlots(bought, Sell, p, {})
            && |PaperSlots(rows, p)| == |StaleSlots(rows, Buy, p, {})| + |StaleSlots(bought, Sell, p, {})|
  {
    var a := StaleSlots(rows, Buy, p, {});
    var b := StaleSlots(rows - a, Sell, p, {});
    forall s: Slot ensures s in PaperSlots(rows, p) <==> s in a + b {
      assert s.side.Buy? || s.side.Sell?;
    }
    assert a !! b;
  }

  lemma {:induction false} SubsetSize(a: set<Slot>, b: set<Slot>)
    requires a <= b
    ensures |a| <= |b|
    ensures |a| == |b| ==> a == b
  {
    if a != {} {
      var s :| s in a;
      SubsetSize(a - {s}, b - {s});
    }
  }

  /** How many stale orders a scan has deleted when it fails: it issued this many commands, the
      last of which got this reply. The scan itself is the first of them. */
  function Deleted(issued: nat, reply: Reply): nat {
    if issued <= 1 then 0 else issued - 2 + if reply == Lost then 1 else 0
  }

  /** How many orders a write has stored when it fails in the same way. */
  function Landed(issued: nat, reply: Reply): nat
    requires issued > 0
  {
    issued - 1 + if reply == Lost then 1 else 0
  }

  /** Of two hashes holding these many synthetic orders, a purge that fails has nevertheless deleted
      every one: it failed in the last deletion, which was carried out with the reply lost, or in
      scanning a second hash that held none. */
  predicate Emptied(buys: nat, sells: nat, issued: nat, reply: Reply) {
    if sells > 0 then issued == 2 + buys + sells && reply == Lost
    else buys == 0 || issued == 2 + buys || (issued == 1 + buys && reply == Lost)
  }

  /** A scan of one side leaves the other alone. */
  lemma OneSideDeleted(rows: Rows, side: Side, p: Pair, gone: set<Slot>)
    requires gone <= StaleSlots(rows, side, p, {})
    ensures var after := Without(rows, gone);
            var other := if side == Buy then Sell else Buy;
            && StaleSlots(after, other, p, {}) == StaleSlots(rows, other, p, {})
            && StaleSlots(after, side, p, {}) == StaleSlots(rows, side, p, {}) - gone
            && (StaleSlots(after, side, p, {}) == {} <==> |gone| == |StaleSlots(rows, side, p, {})|)
  {
    var stale := StaleSlots(rows, side, p, {});
    assert stale == stale - gone + gone;
    assert stale - gone == {} ==> gone == stale;
    if |gone| == |stale| {
      SubsetSize(gone, stale);
    }
  }

  lemma PaperIsBothSides(rows: Rows, p: Pair)
    ensures PaperSlots(rows, p) == StaleSlots(rows, Buy, p, {}) + StaleSlots(rows, Sell, p, {})
  {
    forall s: Slot ensures s in PaperSlots(rows, p) <==> s in StaleSlots(rows, Buy, p, {}) + StaleSlots(rows, Sell, p, {}) {
      assert s.side.Buy? || s.side.Sell?;
    }
  }

  /** A purge that fails while it deletes buys. */
  lemma FailedInBuys(rows: Rows, p: Pair, gone: set<Slot>, issued: nat, reply: Reply)
    requires gone <= StaleSlots(rows, Buy, p, {}) && |gone| == Deleted(issued, reply)
    requires 0 < issued <= 1 + |StaleSlots(rows, Buy, p, {})| && reply != Done
    ensures PaperSlots(Without(rows, gone), p) == {} <==>
            Emptied(|StaleSlots(rows, Buy, p, {})|, |StaleSlots(rows, Sell, p, {})|, issued, reply)
  {
    OneSideDeleted(rows, Buy, p, gone);
    PaperIsBothSides(Without(rows, gone), p);
    SubsetSize(gone, StaleSlots(rows, Buy, p, {}));
    hide StaleSlots, PaperSlots, Without;
  }

  /** A purge that fails after the last buy is gone. */
  lemma FailedInSells(rows: Rows, bought: Rows, p: Pair, gone: set<Slot>, issued: nat, reply: Reply)
    requires bought == Without(rows, StaleSlots(rows, Buy, p, {}))
    requires gone <= StaleSlots(bought, Sell, p, {}) && |gone| == Deleted(issued, reply)
    requires 0 < issued <= 1 + |StaleSlots(bought, Sell, p, {})| && reply != Done
    ensures PaperSlots(Without(bought, gone), p) == {} <==>
            Emptied(|StaleSlots(rows, Buy, p, {})|, |StaleSlots(rows, Sell, p, {})|,
                    1 + |StaleSlots(rows, Buy, p, {})| + issued, reply)
  {
    OneSideDeleted(rows, Buy, p, StaleSlots(rows, Buy, p, {}));
    OneSideDeleted(bought, Sell, p, gone);
    PaperIsBothSides(Without(bought, gone), p);
    SubsetSize(gone, StaleSlots(bought, Sell, p, {}));
    hide StaleSlots, PaperSlots, Without;
  }

  function KeepOf(buys: seq<Order>, sells: seq<Order>): set<Id> { Ids(buys) + Ids(sells) }

  /** How many commands clearing takes. */
  function ClearCost(rows: Rows, p: Pair, previous: seq<Id>, keep: set<Id>): nat {
    var kept := Forgotten(rows, p, previous);
    var bought := kept - StaleSlots(kept, Buy, p, keep);
    2 * |previous| + (1 + |StaleSlots(kept, Buy, p, keep)|) + (1 + |StaleSlots(bought, Sell, p, keep)|)
  }

  function IdSeq(orders: seq<Order>): seq<Id> { seq(|orders|, i requires 0 <= i < |orders| => orders[i].id) }

  function PreviousIds(lastIds: map<Pair, seq<Id>>, p: Pair): seq<Id> { if p in lastIds then lastIds[p] else [] }

  lemma ClearedIs(rows: Rows, p: Pair, previous: seq<Id>, keep: set<Id>)
    ensures var kept := Forgotten(rows, p, previous);
            var bought := Without(kept, StaleSlots(kept, Buy, p, keep));
            && Cleared(rows, p, previous, keep) == Without(bought, StaleSlots(bought, Sell, p, keep))
            && ClearCost(rows, p, previous, keep) ==
               2 * |previous| + (1 + |StaleSlots(kept, Buy, p, keep)|) + (1 + |StaleSlots(bought, Sell, p, keep)|)
  {}

  lemma ShrunkWider(before: Rows, after: Rows, p: Pair, named: seq<Id>)
    requires Shrunk(before, after, p, [])
    ensures Shrunk(before, after, p, named)
  {}

  /** A sweep after other deletions. */
  lemma ShrunkMore(a: Rows, b: Rows, c: Rows, p: Pair, named: seq<Id>, claimed: bool, exposed: set<Slot>)
    requires Shrunk(a, b, p, named) && Shrunk(b, c, p, [])
    ensures Shrunk(a, c, p, named)
    ensures Exposure(claimed, Exposure(claimed, exposed, a, b), b, c) == Exposure(claimed, exposed, a, c)
  {
    hide Exposure;
    ShrunkWider(b, c, p, named);
    ShrunkTwice(a, b, c, p, named);
    ShrunkKeys(a, b, p, named);
    ShrunkKeys(b, c, p, named);
    ExposeMore(claimed, exposed, a, b, c);
  }

  lemma ForgetOneMore(rows: Rows, p: Pair, ids: seq<Id>, i: nat)
    requires i < |ids|
    ensures Forgotten(rows, p, ids[..i + 1]) ==
            Without(Without(Forgotten(rows, p, ids[..i]), {Slot(Buy, p, ids[i])}), {Slot(Sell, p, ids[i])})
  {
    assert ids[..i + 1][..i] == ids[..i];
  }

  lemma ForgottenShrinks(rows: Rows, p: Pair, ids: seq<Id>, i: nat)
    requires i <= |ids|
    ensures Shrunk(rows, Forgotten(rows, p, ids[..i]), p, ids)
    ensures i < |ids| ==> Shrunk(rows, Without(Forgotten(rows, p, ids[..i]), {Slot(Buy, p, ids[i])}), p, ids)
  {
    forall s: Slot
      ensures var f := Forgotten(rows, p, ids[..i]);
              if s in f then Stored(rows, s, f[s]) else s in rows ==> s.pair == p && s.field in ids
    {
      ForgottenAt(rows, p, ids[..i], s);
    }
  }

  lemma WriteOneMore(rows: Rows, side: Side, p: Pair, orders: seq<Order>, i: nat)
    requires i < |orders|
    ensures Written(rows, side, p, orders[..i + 1]) ==
            Written(rows, side, p, orders[..i])[SlotOf(side, p, orders[i]) := RowOf(orders[i])]
  {
    assert orders[..i + 1][..i] == orders[..i];
  }

  /** What an interrupted or completed write leaves: the first few orders of each side. */
  function Torn(bare: Rows, p: Pair, buys: seq<Order>, sells: seq<Order>, n: nat, m: nat): Rows
    requires n <= |buys| && m <= |sells|
  {
    Written(Written(bare, Buy, p, buys[..n]), Sell, p, sells[..m])
  }

  lemma TornAt(bare: Rows, p: Pair, buys: seq<Order>, sells: seq<Order>, n: nat, m: nat, s: Slot)
    requires n <= |buys| && m <= |sells|
    ensures var t := Torn(bare, p, buys, sells, n, m);
            if IsNew(p, buys[..n], sells[..m], s) then s in t && IsPaper(t[s]) && IsNew(p, buys, sells, s)
            else (s in t <==> s in bare) && (s in t ==> t[s] == bare[s])
  {
    WrittenAt(bare, Buy, p, buys[..n], s);
    WrittenAt(Written(bare, Buy, p, buys[..n]), Sell, p, sells[..m], s);
    assert s.side.Buy? || s.side.Sell?;
  }

  lemma TornKeepsOthers(before: Rows, bare: Rows, p: Pair, named: seq<Id>,
                        buys: seq<Order>, sells: seq<Order>, n: nat, m: nat)
    requires n <= |buys| && m <= |sells| && Shrunk(before, bare, p, named)
    ensures OthersKept(before, Torn(bare, p, buys, sells, n, m), p, named, buys, sells)
  {
    hide Torn, IsNew;
    var t := Torn(bare, p, buys, sells, n, m);
    forall s: Slot
      ensures (s in before && (s.pair != p || (!IsPaper(before[s]) && s.field !in named && !IsNew(p, buys, sells, s))))
          ==> Stored(t, s, before[s])
      ensures s in t && (s.pair != p || !IsPaper(t[s])) ==> Stored(before, s, t[s])
    {
      TornAt(bare, p, buys, sells, n, m, s);
      NewIsOfPair(p, buys[..n], sells[..m], s);
      if s in before && s in bare {
        assert Stored(before, s, bare[s]);
      }
    }
  }

  lemma NewIsOfPair(p: Pair, buys: seq<Order>, sells: seq<Order>, s: Slot)
    ensures IsNew(p, buys, sells, s) ==> s.pair == p
  {}

  lemma TornHasPaper(bare: Rows, p: Pair, buys: seq<Order>, sells: seq<Order>, n: nat, m: nat)
    requires n <= |buys| && m <= |sells| && n + m > 0
    ensures PaperSlots(Torn(bare, p, buys, sells, n, m), p) != {}
  {
    hide Torn;
    var s := if n > 0 then SlotOf(Buy, p, buys[0]) else SlotOf(Sell, p, sells[0]);
    assert n > 0 ==> buys[..n][0] == buys[0];
    assert m > 0 ==> sells[..m][0] == sells[0];
    TornAt(bare, p, buys, sells, n, m, s);
    assert s in PaperSlots(Torn(bare, p, buys, sells, n, m), p);
  }

  lemma ShrinkKeepsOthers(before: Rows, torn: Rows, after: Rows, p: Pair, named: seq<Id>,
                          buys: seq<Order>, sells: seq<Order>)
    requires OthersKept(before, torn, p, named, buys, sells) && Shrunk(torn, after, p, [])
    ensures OthersKept(before, after, p, named, buys, sells)
  {
    hide IsNew;
    forall s | s in after && (s.pair != p || !IsPaper(after[s])) ensures Stored(before, s, after[s]) {
      assert Stored(torn, s, after[s]);
    }
    forall s | s in before && (s.pair != p || (!IsPaper(before[s]) && s.field !in named && !IsNew(p, buys, sells, s)))
      ensures Stored(after, s, before[s])
    {
      assert Stored(torn, s, before[s]);
      if s in after {
        assert Stored(torn, s, after[s]);
      }
    }
  }

  lemma OtherPaper(before: Rows, after: Rows, p: Pair, named: seq<Id>, buys: seq<Order>, sells: seq<Order>, q: Pair)
    requires OthersKept(before, after, p, named, buys, sells) && q != p
    ensures PaperSlots(after, q) == PaperSlots(before, q)
  {
    hide IsNew;
    forall s | s in PaperSlots(before, q) ensures s in PaperSlots(after, q) {
      assert Stored(after, s, before[s]);
    }
    forall s | s in PaperSlots(after, q) ensures s in PaperSlots(before, q) {
      assert Stored(before, s, after[s]);
    }
  }

  lemma ShrunkPaper(before: Rows, after: Rows, p: Pair, named: seq<Id>)
    requires Shrunk(before, after, p, named)
    ensures PaperSlots(after, p) <= PaperSlots(before, p)
  {
    forall s | s in PaperSlots(after, p) ensures s in PaperSlots(before, p) {
      assert Stored(before, s, after[s]);
    }
  }

  lemma PurgedHasNoPaper(rows: Rows, p: Pair)
    ensures PaperSlots(Without(rows, PaperSlots(rows, p)), p) == {}
  {}

  function Orphans(lastSyncAt: map<Pair, int>, skip: Option<Pair>, now: int): set<Pair> {
    set q | q in lastSyncAt && Some(q) != skip && now - lastSyncAt[q] > ORPHAN_MS
  }

  /** Only synthetic orders of these pairs are gone. */
  predicate Trimmed(before: Rows, after: Rows, pairs: set<Pair>) {
    && (forall s | s in after :: Stored(before, s, after[s]))
    && (forall s | s in before && s !in after :: s.pair in pairs && IsPaper(before[s]))
  }

  lemma TrimMore(a: Rows, b: Rows, c: Rows, pairs: set<Pair>, p: Pair)
    requires Trimmed(a, b, pairs) && Shrunk(b, c, p, [])
    ensures Trimmed(a, c, pairs + {p})
  {
    forall s | s in c ensures Stored(a, s, c[s]) {
      assert Stored(b, s, c[s]);
    }
    forall s | s in a && s !in c ensures s.pair in pairs + {p} && IsPaper(a[s]) {
      if s in b {
        assert Stored(a, s, b[s]);
      }
    }
  }

  lemma TrimmedPaper(before: Rows, after: Rows, pairs: set<Pair>, q: Pair)
    requires Trimmed(before, after, pairs)
    ensures PaperSlots(after, q) <= PaperSlots(before, q)
    ensures q !in pairs ==> PaperSlots(after, q) == PaperSlots(before, q)
  {
    forall s: Slot ensures s in PaperSlots(after, q) ==> s in PaperSlots(before, q) {
      if s in after {
        assert Stored(before, s, after[s]);
      }
    }
    forall s: Slot ensures q !in pairs && s in PaperSlots(before, q) ==> s in PaperSlots(after, q) {
      if s in after {
        assert Stored(before, s, after[s]);
      }
    }
  }

  /** What the process remembers, and what redis holds. */
  datatype Memory = Memory(rows: Rows, lastIds: map<Pair, seq<Id>>, lastSyncAt: map<Pair, int>,
                           purgedPairs: set<Pair>, last: map<Pair, Event>)

  /** A purge of these pairs was tried, and went through for some of them. */
  ghost predicate SweptTo(m0: Memory, m1: Memory, tried: set<Pair>, swept: set<Pair>) {
    && swept <= tried
    && Trimmed(m0.rows, m1.rows, tried)
    && (forall q | q in swept :: PaperSlots(m1.rows, q) == {})
    && m1.lastIds == m0.lastIds - swept
    && m1.lastSyncAt == m0.lastSyncAt - swept
    && m1.purgedPairs == m0.purgedPairs + swept
    && m1.last.Keys == m0.last.Keys + tried
    && (forall q | q in tried :: m1.last[q].Gone?)
    && (forall q | q in m0.last && q !in tried :: m1.last[q] == m0.last[q])
  }

  /** The effect of one purge. */
  ghost predicate PurgedOne(m0: Memory, m1: Memory, p: Pair, ok: bool) {
    && Shrunk(m0.rows, m1.rows, p, [])
    && (ok ==> m1.rows == Without(m0.rows, PaperSlots(m0.rows, p)))
    && m1.lastIds == (if ok then m0.lastIds - {p} else m0.lastIds)
    && m1.lastSyncAt == (if ok then m0.lastSyncAt - {p} else m0.lastSyncAt)
    && m1.purgedPairs == (if ok then m0.purgedPairs + {p} else m0.purgedPairs)
    && p in m1.last && m1.last == m0.last[p := m1.last[p]] && m1.last[p].Gone?
  }

  lemma SweepStep(m0: Memory, m1: Memory, m2: Memory, tried: set<Pair>, swept: set<Pair>, q: Pair, ok: bool)
    requires SweptTo(m0, m1, tried, swept) && PurgedOne(m1, m2, q, ok)
    ensures SweptTo(m0, m2, tried + {q}, if ok then swept + {q} else swept)
  {
    hide PaperSlots, Without, Shrunk, Trimmed;
    TrimMore(m0.rows, m1.rows, m2.rows, tried, q);
    if ok {
      PurgedHasNoPaper(m1.rows, q);
    }
    forall r | r in swept ensures PaperSlots(m2.rows, r) == {} {
      ShrunkTrims(m1.rows, m2.rows, q);
      TrimmedPaper(m1.rows, m2.rows, {q}, r);
    }
  }

  lemma SweepNone(m: Memory)
    ensures SweptTo(m, m, {}, {})
  {}

  lemma RanUp(replies: nat -> Reply, from: nat, to: nat, n: nat, ok: bool)
    requires Ran(replies, from, to, n, ok) && n > 0
    ensures from < to && (ok <==> Up(replies, from, to))
  {}

  lemma UpSplit(replies: nat -> Reply, a: nat, b: nat, c: nat)
    requires a <= b <= c
    ensures Up(replies, a, c) <==> Up(replies, a, b) && Up(replies, b, c)
  {}

  lemma ShrunkTrims(before: Rows, after: Rows, p: Pair)
    requires Shrunk(before, after, p, [])
    ensures Trimmed(before, after, {p})
  {}

  lemma NoneRan(replies: nat -> Reply, at: nat)
    ensures Ran(replies, at, at, 0, true)
  {}

  lemma RanLength(replies: nat -> Reply, from: nat, to: nat, n: nat, ok: bool)
    requires Ran(replies, from, to, n, ok)
    ensures if ok then to == from + n else from < to <= from + n
  {}

  lemma TellSynced(at: int, buys: seq<Order>, sells: seq<Order>)
    ensures Told(Synced(at, buys, sells)) == Built(at, buys, sells)
  {}

  lemma TornNothing(bare: Rows, p: Pair, buys: seq<Order>, sells: seq<Order>)
    ensures Torn(bare, p, buys, sells, 0, 0) == bare
  {}

  lemma TornFirst(bare: Rows, p: Pair, buys: seq<Order>, sells: seq<Order>, n: nat)
    requires n <= |buys|
    ensures Torn(bare, p, buys, sells, n, 0) == Written(bare, Buy, p, buys[..n])
  {}

  lemma TornBoth(bare: Rows, p: Pair, buys: seq<Order>, sells: seq<Order>, n: nat, m: nat)
    requires n == |buys| && m <= |sells|
    ensures Torn(bare, p, buys, sells, n, m) == Written(Written(bare, Buy, p, buys[..n]), Sell, p, sells[..m])
    ensures m == |sells| ==> Torn(bare, p, buys, sells, n, m) == Written(Written(bare, Buy, p, buys), Sell, p, sells)
  {
    assert buys[..n] == buys;
    assert m == |sells| ==> sells[..m] == sells;
  }

  /** How many commands a refresh issues before the first order is written, and in all. */
  ghost function BareCost(m: Memory, p: Pair, buys: seq<Order>, sells: seq<Order>): nat {
    ClearCost(m.rows, p, PreviousIds(m.lastIds, p), KeepOf(buys, sells))
  }

  ghost function ReplaceCost(m: Memory, p: Pair, buys: seq<Order>, sells: seq<Order>): nat {
    BareCost(m, p, buys, sells) + |buys| + |sells|
  }

  /** Redis and the process after a completed refresh. */
  ghost function ReplacedMemory(m: Memory, p: Pair, buys: seq<Order>, sells: seq<Order>, ended: int): Memory {
    Memory(Refreshed(m.rows, p, PreviousIds(m.lastIds, p), buys, sells),
           m.lastIds[p := IdSeq(buys) + IdSeq(sells)],
           m.lastSyncAt[p := ended],
           m.purgedPairs - {p},
           m.last[p := Synced(ended, buys, sells)])
  }

  /** What a completed refresh remembers: the ids it wrote, buys first, when it ended, and that
      the pair is no longer purged; what it replaced by name is what was remembered before. */
  lemma ReplacedIs(m: Memory, p: Pair, buys: seq<Order>, sells: seq<Order>, ended: int)
    ensures var r := ReplacedMemory(m, p, buys, sells, ended);
            && p in r.lastIds && |r.lastIds[p]| == |buys| + |sells|
            && (forall i | 0 <= i < |buys| :: r.lastIds[p][i] == buys[i].id)
            && (forall i | 0 <= i < |sells| :: r.lastIds[p][|buys| + i] == sells[i].id)
            && p in r.lastSyncAt && r.lastSyncAt[p] == ended && p !in r.purgedPairs
            && p in r.last && r.last[p] == Synced(ended, buys, sells)
            && (p in m.lastIds ==> r.rows == Refreshed(m.rows, p, m.lastIds[p], buys, sells))
            && (p !in m.lastIds ==> r.rows == Refreshed(m.rows, p, [], buys, sells))
            && forall q | q != p ::
                 && (q in r.lastIds <==> q in m.lastIds) && (q in m.lastIds ==> r.lastIds[q] == m.lastIds[q])
                 && (q in r.lastSyncAt <==> q in m.lastSyncAt) && (q in m.lastSyncAt ==> r.lastSyncAt[q] == m.lastSyncAt[q])
                 && (q in r.purgedPairs <==> q in m.purgedPairs)
  {}

  ghost predicate ArmedIn(m: Memory, p: Pair) { p in m.purgedPairs && p !in m.lastIds }

  ghost predicate SoundIn(m: Memory, p: Pair) { ArmedIn(m, p) ==> PaperSlots(m.rows, p) == {} }

  /** The pair's ladder is down: either everything synthetic is gone and the purge is remembered,
      or the purge is still owed and the process remembers what it did before. */
  ghost predicate LadderDown(m0: Memory, m1: Memory, p: Pair, remembered: bool) {
    && p in m1.last && m1.last[p].Gone? && m1.last == m0.last[p := m1.last[p]]
    && m1.lastIds == (if remembered then m0.lastIds - {p} else m0.lastIds)
    && m1.lastSyncAt == (if remembered then m0.lastSyncAt - {p} else m0.lastSyncAt)
    && m1.purgedPairs == (if remembered then m0.purgedPairs + {p} else m0.purgedPairs)
    && (remembered ==> PaperSlots(m1.rows, p) == {})
  }

  lemma DownIsSound(m0: Memory, m1: Memory, p: Pair, remembered: bool)
    requires LadderDown(m0, m1, p, remembered)
    requires remembered || !ArmedIn(m0, p) || PaperSlots(m1.rows, p) == {}
    ensures SoundIn(m1, p)
  {}

  lemma ArmedMeans(m: Memory, p: Pair)
    ensures ArmedIn(m, p) <==> p in m.purgedPairs && p !in m.lastIds
  {}

  lemma SoundStaysSound(m0: Memory, m1: Memory, p: Pair, named: seq<Id>)
    requires SoundIn(m0, p) && ArmedIn(m0, p) && Shrunk(m0.rows, m1.rows, p, named)
    ensures PaperSlots(m1.rows, p) == {}
  {
    ShrunkPaper(m0.rows, m1.rows, p, named);
  }

  /** What an interruption leaves, after its recovery. */
  lemma InterruptedIsSound(m0: Memory, m1: Memory, m2: Memory, p: Pair, named: seq<Id>, wrote: bool, recovered: bool)
    requires m1 == m0.(rows := m1.rows) && LadderDown(m1, m2, p, recovered) && Shrunk(m1.rows, m2.rows, p, [])
    requires !wrote ==> Shrunk(m0.rows, m1.rows, p, named)
    requires wrote ==> PaperSlots(m1.rows, p) != {}
    ensures SoundIn(m0, p) && !(wrote && !recovered && ArmedIn(m0, p)) ==> SoundIn(m2, p)
    ensures wrote && !recovered && ArmedIn(m0, p) ==> (SoundIn(m2, p) <==> PaperSlots(m2.rows, p) == {})
    ensures wrote && ArmedIn(m0, p) && m2.rows == m1.rows ==> !SoundIn(m2, p) && !recovered && ArmedIn(m2, p)
  {
    hide Shrunk, PaperSlots;
    if SoundIn(m0, p) && !wrote && ArmedIn(m0, p) {
      ShrunkWider(m1.rows, m2.rows, p, named);
      ShrunkTwice(m0.rows, m1.rows, m2.rows, p, named);
      SoundStaysSound(m0, m2, p, named);
    }
  }

  /** A cycle of one pair does not disturb what is known about another. */
  lemma OthersStaySound(m0: Memory, m1: Memory, p: Pair, named: seq<Id>, buys: seq<Order>, sells: seq<Order>, q: Pair)
    requires q != p && OthersKept(m0.rows, m1.rows, p, named, buys, sells)
    requires (q in m1.lastIds <==> q in m0.lastIds) && (q in m1.purgedPairs <==> q in m0.purgedPairs)
    ensures SoundIn(m0, q) <==> SoundIn(m1, q)
  {
    OtherPaper(m0.rows, m1.rows, p, named, buys, sells, q);
  }

  /** What the market offers a pair this cycle. */
  datatype Market =
    | Unfit(reason: string)
    | NoAdmin
    | Fit(buys: seq<Order>, sells: seq<Order>)

  function BuysOf(market: Market): seq<Order> { if market.Fit? then market.buys else [] }

  function SellsOf(market: Market): seq<Order> { if market.Fit? then market.sells else [] }

  /** How a cycle ends: the ladder is replaced, or dropped, or an error interrupts the cycle
      after some of the new ladder was written or none, and a recovery purge that starts at
      command `at`, with `torn` in the hashes, succeeds or fails. */
  datatype End = Replaced | Dropped | Failed(wrote: bool, at: nat, torn: Rows, recovered: bool)

  /** What spoils an armed gate: an interruption after the first write, and a recovery that fails
      before it has deleted what was written. */
  ghost predicate Spoils(end: End, p: Pair, asked: nat, reply: Reply) {
    && end.Failed? && end.wrote && !end.recovered && end.at < asked
    && !Emptied(|StaleSlots(end.torn, Buy, p, {})|, |StaleSlots(end.torn, Sell, p, {})|, asked - end.at, reply)
  }

  /** Sweeping orphans cannot spoil a gate: an orphan is a pair the process remembers a ladder of. */
  lemma SweptIsSound(m0: Memory, m1: Memory, tried: set<Pair>, swept: set<Pair>, q: Pair)
    requires SweptTo(m0, m1, tried, swept) && tried <= m0.lastIds.Keys
    ensures SoundIn(m0, q) ==> SoundIn(m1, q)
    ensures q !in tried ==> (ArmedIn(m0, q) <==> ArmedIn(m1, q)) && PaperSlots(m1.rows, q) == PaperSlots(m0.rows, q)
    ensures q !in tried ==> PreviousIds(m0.lastIds, q) == PreviousIds(m1.lastIds, q)
  {
    hide Trimmed;
    TrimmedPaper(m0.rows, m1.rows, tried, q);
  }

  /** Only what is remembered of one pair may differ. */
  ghost predicate SameButFor(m0: Memory, m1: Memory, p: Pair) {
    forall q | q != p :: (q in m0.lastIds <==> q in m1.lastIds) && (q in m0.purgedPairs <==> q in m1.purgedPairs)
  }

  lemma DownTouchesOne(m0: Memory, m1: Memory, p: Pair, remembered: bool)
    requires LadderDown(m0, m1, p, remembered)
    ensures SameButFor(m0, m1, p)
  {}

  lemma ReplacedTouchesOne(m: Memory, p: Pair, buys: seq<Order>, sells: seq<Order>, ended: int)
    ensures SameButFor(m, ReplacedMemory(m, p, buys, sells, ended), p)
  {}

  lemma TwoStages(m0: Memory, m1: Memory, m2: Memory, tried: set<Pair>, swept: set<Pair>, p: Pair,
                  named: seq<Id>, buys: seq<Order>, sells: seq<Order>, q: Pair)
    requires SweptTo(m0, m1, tried, swept) && tried <= m0.lastIds.Keys
    requires OthersKept(m1.rows, m2.rows, p, named, buys, sells) && SameButFor(m1, m2, p)
    requires q != p && SoundIn(m0, q)
    ensures SoundIn(m2, q)
  {
    hide OthersKept, SweptTo;
    SweptIsSound(m0, m1, tried, swept, q);
    OthersStaySound(m1, m2, p, named, buys, sells, q);
  }

  lemma UsersKept(m0: Memory, m1: Memory, m2: Memory, tried: set<Pair>, swept: set<Pair>, p: Pair,
                  named: seq<Id>, buys: seq<Order>, sells: seq<Order>, s: Slot)
    requires SweptTo(m0, m1, tried, swept) && OthersKept(m1.rows, m2.rows, p, named, buys, sells)
    requires s in m0.rows && !IsPaper(m0.rows[s]) && s.field !in named && !IsNew(p, buys, sells, s)
    ensures Stored(m2.rows, s, m0.rows[s])
  {
    assert Trimmed(m0.rows, m1.rows, tried);
    assert s in m1.rows;
    assert Stored(m0.rows, s, m1.rows[s]);
    assert Stored(m2.rows, s, m1.rows[s]);
  }

  /** Every command a cycle of a fit market needs succeeds: the admin's account, the clearing, and
      the writes. */
  ghost predicate CycleUp(replies: nat -> Reply, from: nat, m: Memory, p: Pair, market: Market) {
    market.Fit? && Up(replies, from, from + 1 + ReplaceCost(m, p, market.buys, market.sells))
  }

  /** The first command to fail is the one before `at`. */
  predicate FailedBefore(replies: nat -> Reply, from: nat, at: nat) {
    from < at && Up(replies, from, at - 1) && replies(at - 1) != Done
  }

  lemma CycleNeeds(replies: nat -> Reply, from: nat, m: Memory, p: Pair, market: Market)
    ensures CycleUp(replies, from, m, p, market) ==> market.Fit? && replies(from) == Done
  {}

  lemma FailsAtOnce(replies: nat -> Reply, from: nat)
    requires replies(from) != Done
    ensures FailedBefore(replies, from, from + 1)
  {}

  lemma CycleRan(replies: nat -> Reply, from: nat, to: nat, m: Memory, p: Pair,
                 buys: seq<Order>, sells: seq<Order>, ok: bool)
    requires replies(from) == Done && Ran(replies, from + 1, to, ReplaceCost(m, p, buys, sells), ok)
    ensures ok <==> CycleUp(replies, from, m, p, Fit(buys, sells))
    ensures !ok ==> FailedBefore(replies, from, to)
  {
    hide ReplaceCost;
    UpSplit(replies, from, from + 1, from + 1 + ReplaceCost(m, p, buys, sells));
    if !ok {
      UpSplit(replies, from, from + 1, to - 1);
      assert !Up(replies, from + 1, from + 1 + ReplaceCost(m, p, buys, sells));
    }
  }

  lemma RecoveredIsSound(m0: Memory, m2: Memory, p: Pair, recovered: bool)
    requires LadderDown(m0, m2, p, recovered) && Shrunk(m0.rows, m2.rows, p, [])
    ensures SoundIn(m0, p) ==> SoundIn(m2, p)
  {
    if SoundIn(m0, p) && ArmedIn(m0, p) {
      SoundStaysSound(m0, m2, p, []);
    }
  }

  lemma DroppingKeepsAll(before: Rows, after: Rows, p: Pair, named: seq<Id>, buys: seq<Order>, sells: seq<Order>)
    requires Shrunk(before, after, p, [])
    ensures OthersKept(before, after, p, named, buys, sells)
  {
    hide IsNew;
    forall s | s in before && s in after ensures Stored(after, s, before[s]) {
      assert Stored(before, s, after[s]);
    }
  }

  lemma NothingKept(rows: Rows, p: Pair, named: seq<Id>, buys: seq<Order>, sells: seq<Order>)
    ensures OthersKept(rows, rows, p, named, buys, sells)
  {}

  lemma DroppingKeepsOthers(before: Rows, after: Rows, p: Pair, named: seq<Id>)
    requires Shrunk(before, after, p, [])
    ensures OthersKept(before, after, p, named, [], [])
  {
    DroppingKeepsAll(before, after, p, named, [], []);
  }

  /** Whose ladder is orphaned: a remembered pair that is not the cycle's own and was last
      refreshed more than half a minute ago. */
  lemma OrphansAre(lastSyncAt: map<Pair, int>, skip: Option<Pair>, now: int)
    ensures forall q ::
              q in Orphans(lastSyncAt, skip, now) <==> q in lastSyncAt && skip != Some(q) && now - lastSyncAt[q] > 30000
  {}

  predicate AllOrphaned(last: map<Pair, Event>, pairs: set<Pair>, now: int) {
    forall q | q in pairs :: q in last && last[q] == Gone(now, "ladder_orphaned")
  }

  lemma NoneOrphaned(last: map<Pair, Event>, now: int)
    ensures AllOrphaned(last, {}, now)
  {}

  lemma OneMoreOrphaned(last: map<Pair, Event>, pairs: set<Pair>, q: Pair, now: int)
    requires AllOrphaned(last, pairs, now)
    ensures AllOrphaned(last[q := Gone(now, "ladder_orphaned")], pairs + {q}, now)
  {}

  lemma OrphanedAre(last: map<Pair, Event>, pairs: set<Pair>, now: int)
    requires AllOrphaned(last, pairs, now)
    ensures forall q | q in pairs :: q in last && last[q] == Gone(now, "ladder_orphaned")
  {}

  lemma SweptAreTried(m0: Memory, m1: Memory, tried: set<Pair>, swept: set<Pair>)
    requires SweptTo(m0, m1, tried, swept)
    ensures swept <= tried
  {}

  lemma OrphansOf(lastSyncAt: map<Pair, int>, skip: Option<Pair>, now: int)
    ensures skip.Some? ==> skip.value !in Orphans(lastSyncAt, skip, now)
    ensures Orphans(lastSyncAt, skip, now) <= lastSyncAt.Keys
  {}

  class Engine {
    const replies: nat -> Reply
    var asked: nat
    var rows: Rows
    var lastIds: map<Pair, seq<Id>>
    var lastSyncAt: map<Pair, int>
    var purgedPairs: set<Pair>
    var ladderState: map<Pair, Verdict>
    ghost var last: map<Pair, Event>
    /** Stored orders that were deleted while the pair's ladder was still claimed to be present. */
    ghost var exposed: set<Slot>

    /** What is recorded for a pair is what its last event warrants. */
    ghost predicate Honest()
      reads `ladderState, `last
    {
      ladderState.Keys == last.Keys && forall p | p in last :: ladderState[p] == Told(last[p])
    }

    ghost predicate Valid()
      reads `ladderState, `last, `lastIds, `lastSyncAt
    {
      Honest() && lastIds.Keys == lastSyncAt.Keys
    }

    predicate Claimed(p: Pair)
      reads `ladderState
    {
      p in ladderState && ladderState[p].present
    }

    ghost function Now(): Memory
      reads `rows, `lastIds, `lastSyncAt, `purgedPairs, `last
    {
      Memory(rows, lastIds, lastSyncAt, purgedPairs, last)
    }

    /** The skip gate is armed: a drop of this pair's ladder will not look for one. */
    ghost predicate Armed(p: Pair)
      reads `purgedPairs, `lastIds
    {
      p in purgedPairs && p !in lastIds
    }

    /** An armed gate is right about the pair. */
    ghost predicate Sound(p: Pair)
      reads `rows, `lastIds, `lastSyncAt, `purgedPairs, `last
    {
      SoundIn(Now(), p)
    }

    constructor (replies: nat -> Reply, rows: Rows)
      ensures Valid() && this.replies == replies && this.rows == rows && asked == 0
      ensures purgedPairs == {} && lastIds == map[] && last == map[] && exposed == {}
    {
      this.replies, this.rows, asked := replies, rows, 0;
      lastIds, lastSyncAt, purgedPairs, ladderState := map[], map[], {}, map[];
      last, exposed := map[], {};
    }

    /** The display is told "present" exactly when the last thing that happened to the pair's
        ladder is a completed write of at least one order, no longer ago than the staleness
        limit; it is then told the capacity and the best prices of the orders that were written.
        Otherwise it is told of no capacity and no price. */
    function GetLadderState(p: Pair, now: int): (v: Verdict)
      requires Honest()
      reads this
      ensures v.present <==> && p in last && last[p].Synced?
                             && |last[p].buys| + |last[p].sells| > 0 && now - last[p].at <= 15000
      ensures v.present ==> v == Built(last[p].at, last[p].buys, last[p].sells)
      ensures !v.present ==> && v.buy == v.sell == 0 && v.bestBuy == v.bestSell == None
                             && v.buyQuantity == v.buyNotional == v.sellQuantity == v.sellNotional == 0.0
      ensures !v.present ==> && v.at == (if p in last then last[p].at else 0)
                             && v.reason == if p in last && last[p].Gone? then last[p].reason
                                            else if p in last && |last[p].buys| + |last[p].sells| > 0 then "ladder_stale"
                                            else "ladder_not_built"
    {
      if p !in ladderState then Absent(0, "ladder_not_built")
      else
        var state := ladderState[p];
        if state.present && now - state.at > LADDER_STALE_MS then Absent(state.at, "ladder_stale")
        else state
    }

    // -------------------------------------------------------------- single commands

    method Ask() returns (r: Reply)
      modifies `asked
      ensures r == replies(old(asked)) && asked == old(asked) + 1
      ensures Ran(replies, old(asked), asked, 1, r == Done)
    {
      r := replies(asked);
      asked := asked + 1;
    }

    method Hdel(s: Slot) returns (ok: bool)
      modifies `asked, `rows, `exposed
      ensures Ran(replies, old(asked), asked, 1, ok) && asked == old(asked) + 1
      ensures rows == if replies(old(asked)).Refused? then old(rows) else Without(old(rows), {s})
      ensures ok <==> replies(old(asked)).Done?
      ensures rows.Keys <= old(rows).Keys
      ensures exposed == Exposure(Claimed(s.pair), old(exposed), old(rows), rows)
      ensures s in old(rows) && s !in rows && Claimed(s.pair) ==> s in exposed
    {
      var r := Ask();
      ok := r.Done?;
      if !r.Refused? {
        rows := rows - {s};
        if Claimed(s.pair) {
          exposed := exposed + (old(rows).Keys - rows.Keys);
        }
      }
    }

    method Hset(s: Slot, row: Row) returns (ok: bool)
      modifies `asked, `rows
      ensures Ran(replies, old(asked), asked, 1, ok) && asked == old(asked) + 1
      ensures rows == if replies(old(asked)).Refused? then old(rows) else old(rows)[s := row]
      ensures ok <==> replies(old(asked)).Done?
    {
      var r := Ask();
      ok := r.Done?;
      if !r.Refused? {
        rows := rows[s := row];
      }
    }

    method RecordLadder(p: Pair, v: Verdict, ghost e: Event)
      requires Honest() && v == Told(e)
      modifies `ladderState, `last
      ensures Honest() && last == old(last)[p := e] && ladderState == old(ladderState)[p := v]
    {
      ladderState := ladderState[p := v];
      last := last[p := e];
    }

    // -------------------------------------------------------------- deleting

    /** One hash is read, and its synthetic orders that are not kept are deleted one by one. */
    method SweepSide(side: Side, p: Pair, keep: set<Id>) returns (ok: bool, ghost gone: set<Slot>)
      modifies `asked, `rows, `exposed
      ensures Ran(replies, old(asked), asked, 1 + |StaleSlots(old(rows), side, p, keep)|, ok)
      ensures gone <= StaleSlots(old(rows), side, p, keep) && rows == Without(old(rows), gone)
      ensures ok ==> gone == StaleSlots(old(rows), side, p, keep)
      ensures !ok ==> asked > old(asked) && |gone| == Deleted(asked - old(asked), replies(asked - 1))
      ensures Shrunk(old(rows), rows, p, [])
      ensures !replies(old(asked)).Done? ==> rows == old(rows)
      ensures exposed == Exposure(Claimed(p), old(exposed), old(rows), rows)
    {
      hide StaleSlots, PaperSlots, SideSlots, Shrunk, Ran, Without, Visited, Exposure;
      ghost var before, first, cost := rows, asked, 1 + |StaleSlots(rows, side, p, keep)|;
      gone := {};
      VisitNone(before, side, p, keep);
      VisitAll(before, side, p, keep);
      ExposeNone(Claimed(p), exposed, before);
      var scan := Ask();
      if !scan.Done? {
        RanShort(replies, first, asked, 1, cost);
        return false, {};
      }
      var all, todo := rows, SideSlots(rows, side, p);
      while todo != {}
        invariant todo <= SideSlots(all, side, p)
        invariant gone == Visited(before, side, p, keep, todo)
        invariant rows == Without(before, gone)
        invariant asked == first + 1 + |gone| && Ran(replies, first, asked, 1 + |gone|, true)
        invariant exposed == Exposure(Claimed(p), old(exposed), before, rows)
        decreases |todo|
      {
        var s :| s in todo;
        VisitOne(before, side, p, keep, todo, s);
        if IsPaper(all[s]) && all[s].id !in keep {
          ghost var start := asked;
          ok := DeleteStale(s, before, gone, p, old(exposed));
          RanThen(replies, first, start, asked, 1 + |gone|, 1, ok);
          if !ok {
            RanShort(replies, first, asked, 2 + |gone|, cost);
            VisitedAreStale(before, side, p, keep, todo);
            VisitedAreStale(before, side, p, keep, todo - {s});
            if replies(start).Lost? {
              gone := gone + {s};
            }
            return;
          }
          gone := gone + {s};
        }
        todo := todo - {s};
      }
      ok := true;
    }

    /** One more synthetic order of a scan that started from `before` is deleted. */
    method DeleteStale(s: Slot, ghost before: Rows, ghost gone: set<Slot>, ghost p: Pair, ghost start: set<Slot>)
      returns (ok: bool)
      requires rows == Without(before, gone) && gone + {s} <= PaperSlots(before, p) && s.pair == p
      requires exposed == Exposure(Claimed(p), start, before, rows)
      modifies `asked, `rows, `exposed
      ensures Ran(replies, old(asked), asked, 1, ok) && asked == old(asked) + 1
      ensures ok <==> replies(old(asked)).Done?
      ensures rows == Without(before, if replies(old(asked)).Refused? then gone else gone + {s})
      ensures Shrunk(before, rows, p, [])
      ensures exposed == Exposure(Claimed(p), start, before, rows)
    {
      hide PaperSlots, Shrunk, Without, Ran, Exposure;
      DeleteOneMore(before, gone, s);
      Deleting(before, gone, p);
      Deleting(before, gone + {s}, p);
      WithoutKeys(before, gone);
      ok := Hdel(s);
      ExposeMore(Claimed(p), start, before, old(rows), rows);
    }

    method SweepBoth(p: Pair) returns (ok: bool)
      modifies `asked, `rows, `exposed
      ensures Ran(replies, old(asked), asked, 2 + |PaperSlots(old(rows), p)|, ok)
      ensures ok ==> rows == Without(old(rows), PaperSlots(old(rows), p))
      ensures Shrunk(old(rows), rows, p, [])
      ensures !replies(old(asked)).Done? ==> rows == old(rows)
      ensures !ok ==> LeftEmptyIff(old(rows), rows, p, old(asked), asked)
      ensures !Claimed(p) ==> exposed == old(exposed)
    {
      hide StaleSlots, PaperSlots, Shrunk, Ran, Without, Emptied, Deleted;
      ghost var before, bought, first := rows, Without(rows, StaleSlots(rows, Buy, p, {})), asked;
      ghost var n, m := 1 + |StaleSlots(before, Buy, p, {})|, 1 + |StaleSlots(bought, Sell, p, {})|;
      PaperOfBothSides(before, p);
      ghost var gone;
      ok, gone := SweepSide(Buy, p, {});
      RanLength(replies, first, asked, n, ok);
      if !ok {
        RanShort(replies, first, asked, n, n + m);
        FailsLast(replies, first, asked, n);
        FailedInBuys(before, p, gone, asked - first, replies(asked - 1));
        return;
      }
      ghost var half := asked;
      FirstWorked(replies, first, half, n);
      ok, gone := SweepSide(Sell, p, {});
      ShrunkTwice(before, bought, rows, p, []);
      RanThen(replies, first, half, asked, n, m, ok);
      RanLength(replies, half, asked, m, ok);
      if !ok {
        FailsLast(replies, half, asked, m);
        FailedInSells(before, bought, p, gone, asked - half, replies(asked - 1));
      }
    }

    /** A purge that failed has left no synthetic order if and only if its last command says so. */
    ghost predicate LeftEmptyIff(before: Rows, after: Rows, p: Pair, from: nat, to: nat) {
      && from < to
      && (PaperSlots(after, p) == {} <==>
          Emptied(|StaleSlots(before, Buy, p, {})|, |StaleSlots(before, Sell, p, {})|, to - from, replies(to - 1)))
    }

    /** The display is told the ladder is gone before the first order is deleted, so no order is
        ever deleted under a claim. Only a purge that got through everything is remembered. */
    method PurgePaperBook(p: Pair, reason: string, begun: int, ended: int) returns (ok: bool)
      requires Valid()
      modifies this
      ensures Valid()
      ensures Ran(replies, old(asked), asked, 2 + |PaperSlots(old(rows), p)|, ok)
      ensures ok ==> rows == Without(old(rows), PaperSlots(old(rows), p))
      ensures Shrunk(old(rows), rows, p, [])
      ensures !replies(old(asked)).Done? ==> rows == old(rows)
      ensures !ok ==> LeftEmptyIff(old(rows), rows, p, old(asked), asked)
      ensures exposed == old(exposed)
      ensures last == old(last)[p := Gone(if ok then ended else begun, reason)]
      ensures lastIds == if ok then old(lastIds) - {p} else old(lastIds)
      ensures lastSyncAt == if ok then old(lastSyncAt) - {p} else old(lastSyncAt)
      ensures purgedPairs == if ok then old(purgedPairs) + {p} else old(purgedPairs)
    {
      TellGone(begun, reason);
      TellGone(ended, reason);
      hide PaperSlots, Shrunk, Ran, Without, Told, Honest, LeftEmptyIff;
      RecordLadder(p, Absent(begun, reason), Gone(begun, reason));
      ok := SweepBoth(p);
      if !ok {
        return;
      }
      lastIds := lastIds - {p};
      lastSyncAt := lastSyncAt - {p};
      purgedPairs := purgedPairs + {p};
      RecordLadder(p, Absent(ended, reason), Gone(ended, reason));
    }

    /** Purge, unless the gate says there is nothing to purge. */
    method DropLadder(p: Pair, reason: string, begun: int, ended: int) returns (purged: bool)
      requires Valid()
      modifies this
      ensures Valid()
      ensures Shrunk(old(rows), rows, p, [])
      ensures old(Armed(p)) ==> !purged && rows == old(rows) && asked == old(asked)
      ensures !old(Armed(p)) ==> Ran(replies, old(asked), asked, 2 + |PaperSlots(old(rows), p)|, purged)
      ensures purged ==> rows == Without(old(rows), PaperSlots(old(rows), p))
      ensures exposed == old(exposed)
      ensures last == old(last)[p := Gone(if purged then ended else begun, reason)]
      ensures lastIds == if purged then old(lastIds) - {p} else old(lastIds)
      ensures lastSyncAt == if purged then old(lastSyncAt) - {p} else old(lastSyncAt)
      ensures purgedPairs == if purged then old(purgedPairs) + {p} else old(purgedPairs)
    {
      hide PaperSlots, Ran, Without, Told, Honest;
      if p in purgedPairs && p !in lastIds {
        TellGone(begun, reason);
        RecordLadder(p, Absent(begun, reason), Gone(begun, reason));
        return false;
      }
      purged := PurgePaperBook(p, reason, begun, ended);
    }

    /** The ladders nothing has refreshed for too long are purged. */
    method SweepOrphanLadders(skip: Option<Pair>, now: int) returns (swept: set<Pair>)
      requires Valid()
      modifies this
      ensures Valid()
      ensures SweptTo(old(Now()), Now(), Orphans(old(lastSyncAt), skip, now), swept)
      ensures asked >= old(asked)
      ensures Up(replies, old(asked), asked) ==> swept == Orphans(old(lastSyncAt), skip, now)
      ensures Up(replies, old(asked), asked) ==>
                forall q | q in old(lastSyncAt) && skip != Some(q) && now - old(lastSyncAt)[q] > 30000 :: q in swept
      ensures forall q | q in swept :: q in old(lastSyncAt) && skip != Some(q) && now - old(lastSyncAt)[q] > 30000
      ensures forall q | q in Orphans(old(lastSyncAt), skip, now) :: q in last && last[q] == Gone(now, "ladder_orphaned")
      ensures exposed == old(exposed)
    {
      hide Orphans, SweptTo, PurgedOne, Up, Ran, Shrunk, Without, PaperSlots, Told, Honest, Now, AllOrphaned;
      ghost var start, first, orphans, tried: set<Pair> := Now(), asked, Orphans(lastSyncAt, skip, now), {};
      NoneOrphaned(last, now);
      SweepNone(start);
      var todo := Orphans(lastSyncAt, skip, now);
      swept := {};
      while todo != {}
        invariant tried + todo == orphans && tried !! todo
        invariant Valid()
        invariant SweptTo(start, Now(), tried, swept)
        invariant AllOrphaned(last, tried, now)
        invariant asked >= first
        invariant Up(replies, first, asked) ==> swept == tried
        invariant exposed == old(exposed)
        decreases todo
      {
        var q :| q in todo;
        ghost var mid := asked;
        OneMoreOrphaned(last, tried, q, now);
        var ok := SweepOne(q, now, start, tried, swept);
        UpSplit(replies, first, mid, asked);
        tried, todo := tried + {q}, todo - {q};
        if ok {
          swept := swept + {q};
        }
      }
      assert tried == orphans;
      OrphansAre(old(lastSyncAt), skip, now);
      SweptAreTried(start, Now(), tried, swept);
      OrphanedAre(last, tried, now);
    }

    method SweepOne(q: Pair, now: int, ghost start: Memory, ghost tried: set<Pair>, ghost swept: set<Pair>)
      returns (ok: bool)
      requires Valid() && SweptTo(start, Now(), tried, swept)
      modifies this
      ensures Valid()
      ensures SweptTo(start, Now(), tried + {q}, if ok then swept + {q} else swept)
      ensures last == old(last)[q := Gone(now, "ladder_orphaned")]
      ensures asked > old(asked) && (Up(replies, old(asked), asked) ==> ok)
      ensures exposed == old(exposed)
    {
      hide SweptTo, Up, Ran, Shrunk, Without, PaperSlots, Told, Honest;
      ok := PurgePaperBook(q, "ladder_orphaned", now, now);
      RanUp(replies, old(asked), asked, 2 + |PaperSlots(old(rows), q)|, ok);
      SweepStep(start, old(Now()), Now(), tried, swept, q, ok);
    }

    // -------------------------------------------------------------- replacing

    /** Both fields of one id of the last ladder are deleted, whatever rests there. */
    method ForgetOne(p: Pair, ids: seq<Id>, i: nat, ghost before: Rows, ghost start: set<Slot>) returns (ok: bool)
      requires i < |ids| && rows == Forgotten(before, p, ids[..i])
      requires exposed == Exposure(Claimed(p), start, before, rows)
      modifies `asked, `rows, `exposed
      ensures Ran(replies, old(asked), asked, 2, ok)
      ensures ok ==> rows == Forgotten(before, p, ids[..i + 1])
      ensures Shrunk(before, rows, p, ids)
      ensures exposed == Exposure(Claimed(p), start, before, rows)
    {
      hide Forgotten, Without, Shrunk, Ran, Exposure;
      ForgetOneMore(before, p, ids, i);
      ForgottenShrinks(before, p, ids, i);
      ForgottenShrinks(before, p, ids, i + 1);
      ghost var all := rows;
      ShrunkKeys(before, all, p, ids);
      ok := Hdel(Slot(Buy, p, ids[i]));
      ExposeMore(Claimed(p), start, before, all, rows);
      if !ok {
        RanShort(replies, old(asked), asked, 1, 2);
        return;
      }
      ghost var half, bought := asked, rows;
      ok := Hdel(Slot(Sell, p, ids[i]));
      ExposeMore(Claimed(p), start, before, bought, rows);
      RanThen(replies, old(asked), half, asked, 1, 1, ok);
    }

    method ForgetPrevious(p: Pair, ids: seq<Id>) returns (ok: bool)
      modifies `asked, `rows, `exposed
      ensures Ran(replies, old(asked), asked, 2 * |ids|, ok)
      ensures ok ==> rows == Forgotten(old(rows), p, ids)
      ensures Shrunk(old(rows), rows, p, ids)
      ensures exposed == Exposure(Claimed(p), old(exposed), old(rows), rows)
    {
      NoneRan(replies, asked);
      ForgottenShrinks(rows, p, ids, 0);
      ExposeNone(Claimed(p), exposed, rows);
      ghost var before, first := rows, asked;
      assert rows == Forgotten(before, p, ids[..0]);
      hide Forgotten, Shrunk, Ran, Exposure;
      for i := 0 to |ids|
        invariant rows == Forgotten(before, p, ids[..i])
        invariant Ran(replies, first, asked, 2 * i, true)
        invariant exposed == Exposure(Claimed(p), old(exposed), before, rows)
      {
        ghost var mid := asked;
        ok := ForgetOne(p, ids, i, before, old(exposed));
        RanThen(replies, first, mid, asked, 2 * i, 2, ok);
        if !ok {
          RanShort(replies, first, asked, 2 * i + 2, 2 * |ids|);
          return;
        }
      }
      assert ids[..|ids|] == ids;
      ForgottenShrinks(before, p, ids, |ids|);
      ok := true;
    }

    /** Last cycle's ladder by name, then every other leftover by its mark. */
    method ClearLadder(p: Pair, previous: seq<Id>, keep: set<Id>) returns (ok: bool)
      modifies `asked, `rows, `exposed
      ensures Ran(replies, old(asked), asked, ClearCost(old(rows), p, previous, keep), ok)
      ensures ok ==> rows == Cleared(old(rows), p, previous, keep)
      ensures Shrunk(old(rows), rows, p, previous)
      ensures exposed == Exposure(Claimed(p), old(exposed), old(rows), rows)
    {
      hide Forgotten, Shrunk, Ran, Cleared, ClearCost, Without, StaleSlots, Exposure;
      ghost var before, first, start := rows, asked, exposed;
      ghost var kept := Forgotten(before, p, previous);
      ghost var bought := Without(kept, StaleSlots(kept, Buy, p, keep));
      ghost var a, b := 2 * |previous|, 1 + |StaleSlots(kept, Buy, p, keep)|;
      ghost var c := 1 + |StaleSlots(bought, Sell, p, keep)|;
      ClearedIs(before, p, previous, keep);
      ok := ForgetPrevious(p, previous);
      if !ok {
        RanShort(replies, first, asked, a, a + b + c);
        return;
      }
      ghost var mid, gone := asked, {};
      ok, gone := SweepSide(Buy, p, keep);
      RanThen(replies, first, mid, asked, a, b, ok);
      ShrunkMore(before, kept, rows, p, previous, Claimed(p), start);
      if !ok {
        RanShort(replies, first, asked, a + b, a + b + c);
        return;
      }
      mid := asked;
      ok, gone := SweepSide(Sell, p, keep);
      RanThen(replies, first, mid, asked, a + b, c, ok);
      ShrunkMore(before, bought, rows, p, previous, Claimed(p), start);
    }

    /** One side is written, best order first. A failure leaves the first few. */
    method WriteSide(side: Side, p: Pair, orders: seq<Order>) returns (ok: bool, ghost n: nat)
      modifies `asked, `rows
      ensures Ran(replies, old(asked), asked, |orders|, ok)
      ensures n <= |orders| && rows == Written(old(rows), side, p, orders[..n])
      ensures ok ==> n == |orders|
      ensures !ok ==> asked > old(asked) && n == Landed(asked - old(asked), replies(asked - 1))
    {
      NoneRan(replies, asked);
      n := 0;
      ghost var before, first := rows, asked;
      assert rows == Written(before, side, p, orders[..0]);
      hide Written, Ran;
      for i := 0 to |orders|
        invariant n == i && rows == Written(before, side, p, orders[..i])
        invariant asked == first + i && Ran(replies, first, asked, i, true)
      {
        WriteOneMore(before, side, p, orders, i);
        ghost var mid := asked;
        ok := Hset(SlotOf(side, p, orders[i]), RowOf(orders[i]));
        RanThen(replies, first, mid, asked, i, 1, ok);
        RanLength(replies, mid, asked, 1, ok);
        if !ok {
          RanShort(replies, first, asked, i + 1, |orders|);
          if replies(mid).Lost? {
            n := n + 1;
          }
          return;
        }
        n := n + 1;
      }
      ok := true;
    }

    /** Both sides are written, buys first. */
    method WriteLadder(p: Pair, buys: seq<Order>, sells: seq<Order>) returns (ok: bool, ghost n: nat, ghost m: nat)
      modifies `asked, `rows
      ensures Ran(replies, old(asked), asked, |buys| + |sells|, ok)
      ensures n <= |buys| && m <= |sells| && rows == Torn(old(rows), p, buys, sells, n, m)
      ensures ok ==> rows == Written(Written(old(rows), Buy, p, buys), Sell, p, sells)
      ensures !ok ==> asked > old(asked) && n + m == Landed(asked - old(asked), replies(asked - 1))
    {
      hide Ran, Written, Torn;
      ghost var bare, first := rows, asked;
      m := 0;
      ok, n := WriteSide(Buy, p, buys);
      TornFirst(bare, p, buys, sells, n);
      if !ok {
        RanShort(replies, first, asked, |buys|, |buys| + |sells|);
        return;
      }
      ghost var mid := asked;
      RanLength(replies, first, mid, |buys|, true);
      ok, m := WriteSide(Sell, p, sells);
      assert buys[..n] == buys;
      RanThen(replies, first, mid, asked, |buys|, |sells|, ok);
      TornBoth(bare, p, buys, sells, n, m);
    }

    /** A refresh that clears in `cost` commands and fails has stored an order if and only if it
        failed after the first write, or in it with the reply lost. */
    predicate PastFirstWrite(cost: nat, from: nat, to: nat) {
      to > from + cost + 1 || (to == from + cost + 1 && replies(to - 1).Lost?)
    }

    /** The part of a refresh that touches redis. */
    method ReplaceRows(p: Pair, previous: seq<Id>, buys: seq<Order>, sells: seq<Order>)
      returns (ok: bool, ghost wrote: bool)
      modifies `asked, `rows, `exposed
      ensures Ran(replies, old(asked), asked,
                  ClearCost(old(rows), p, previous, KeepOf(buys, sells)) + |buys| + |sells|, ok)
      ensures ok ==> rows == Refreshed(old(rows), p, previous, buys, sells)
      ensures OthersKept(old(rows), rows, p, previous, buys, sells)
      ensures !ok && !wrote ==> Shrunk(old(rows), rows, p, previous)
      ensures !ok && wrote ==> PaperSlots(rows, p) != {}
      ensures !ok ==> wrote == PastFirstWrite(ClearCost(old(rows), p, previous, KeepOf(buys, sells)), old(asked), asked)
      ensures ok ==> exposed == Exposure(Claimed(p), old(exposed), old(rows),
                                         Cleared(old(rows), p, previous, KeepOf(buys, sells)))
      ensures !Claimed(p) ==> exposed == old(exposed)
    {
      hide Ran, Cleared, ClearCost, Written, OthersKept, Shrunk, PaperSlots, Torn;
      ghost var before, first := rows, asked;
      ghost var cost := ClearCost(before, p, previous, KeepOf(buys, sells));
      wrote := false;
      ok := ClearLadder(p, previous, Ids(buys) + Ids(sells));
      ghost var bare, cleared := rows, asked;
      RanLength(replies, first, cleared, cost, ok);
      TornNothing(bare, p, buys, sells);
      if !ok {
        TornKeepsOthers(before, bare, p, previous, buys, sells, 0, 0);
        RanShort(replies, first, asked, cost, cost + |buys| + |sells|);
        return;
      }
      ghost var n, m;
      ok, n, m := WriteLadder(p, buys, sells);
      RanThen(replies, first, cleared, asked, cost, |buys| + |sells|, ok);
      TornKeepsOthers(before, bare, p, previous, buys, sells, n, m);
      if n + m > 0 {
        wrote := true;
        TornHasPaper(bare, p, buys, sells, n, m);
      }
    }

    /** Replace, never merge: clear the pair, write the new ladder, remember it, and only then
        tell the display. If a ladder was claimed, the claim stands while every order it was made
        for is deleted. A failure leaves the first few new orders or none. */
    method ReplaceLadder(p: Pair, buys: seq<Order>, sells: seq<Order>, ended: int) returns (ok: bool, ghost wrote: bool)
      requires Valid()
      modifies this
      ensures Valid()
      ensures Ran(replies, old(asked), asked, ReplaceCost(old(Now()), p, buys, sells), ok)
      ensures ok ==> Now() == ReplacedMemory(old(Now()), p, buys, sells, ended)
      ensures !ok ==> Now() == old(Now()).(rows := rows)
      ensures OthersKept(old(rows), rows, p, PreviousIds(old(lastIds), p), buys, sells)
      ensures !ok && !wrote ==> Shrunk(old(rows), rows, p, PreviousIds(old(lastIds), p))
      ensures !ok && wrote ==> PaperSlots(rows, p) != {}
      ensures !ok ==> wrote == PastFirstWrite(BareCost(old(Now()), p, buys, sells), old(asked), asked)
      ensures ok ==> exposed == Exposure(old(Claimed(p)), old(exposed), old(rows),
                                         Cleared(old(rows), p, PreviousIds(old(lastIds), p), KeepOf(buys, sells)))
      ensures !old(Claimed(p)) ==> exposed == old(exposed)
    {
      hide Exposure, Cleared, Ran, ClearCost, OthersKept, Shrunk, PaperSlots, Told, Honest, Refreshed;
      ok, wrote := ReplaceRows(p, PreviousIds(lastIds, p), buys, sells);
      if ok {
        lastIds := lastIds[p := IdSeq(buys) + IdSeq(sells)];
        lastSyncAt := lastSyncAt[p := ended];
        purgedPairs := purgedPairs - {p};
        var v := BuiltVerdict(ended, buys, sells);
        TellSynced(ended, buys, sells);
        RecordLadder(p, v, Synced(ended, buys, sells));
      }
    }

    /** The record of a completed write, measured from the orders that were written. */
    static method BuiltVerdict(at: int, buys: seq<Order>, sells: seq<Order>) returns (v: Verdict)
      ensures v == Built(at, buys, sells)
    {
      var some := |buys| + |sells| > 0;
      var buyQuantity, buyNotional := LadderCapacity(buys);
      var sellQuantity, sellNotional := LadderCapacity(sells);
      var bestBuy := LadderBestPrice(buys, Buy);
      var bestSell := LadderBestPrice(sells, Sell);
      v := Verdict(some, if some then "" else "ladder_not_built", at, |buys|, |sells|,
                   buyQuantity, buyNotional, sellQuantity, sellNotional, bestBuy, bestSell);
    }

    // -------------------------------------------------------------- one cycle

    /** The reply to the latest command. */
    function LastReply(): Reply
      reads `asked
    {
      if asked == 0 then Done else replies(asked - 1)
    }

    /** An interrupted cycle: the display is told first, then a purge is tried. */
    method Recover(p: Pair, at: int) returns (recovered: bool)
      requires Valid()
      modifies this
      ensures Valid()
      ensures p in last && last[p] == Gone(at, "error")
      ensures LadderDown(old(Now()), Now(), p, recovered)
      ensures Shrunk(old(rows), rows, p, [])
      ensures !replies(old(asked)).Done? ==> rows == old(rows)
      ensures asked > old(asked) && (recovered ==> Up(replies, old(asked), asked))
      ensures !recovered ==> LeftEmptyIff(old(rows), rows, p, old(asked), asked)
      ensures exposed == old(exposed)
    {
      TellGone(at, "error");
      hide Ran, Shrunk, PaperSlots, Told, Honest, Without, Up, LeftEmptyIff;
      RecordLadder(p, Absent(at, "error"), Gone(at, "error"));
      ghost var before, first := rows, asked;
      recovered := PurgePaperBook(p, "error", at, at);
      PurgedHasNoPaper(before, p);
      RanUp(replies, first, asked, 2 + |PaperSlots(before, p)|, recovered);
    }

    /** A pair that may not carry a ladder, or whose depth is not to be trusted, has none. */
    method Drop(p: Pair, reason: string, begun: int, ended: int) returns (ghost remembered: bool)
      requires Valid()
      modifies this
      ensures Valid()
      ensures p in last && last[p] == Gone(if remembered then ended else begun, reason)
      ensures LadderDown(old(Now()), Now(), p, remembered)
      ensures Shrunk(old(rows), rows, p, [])
      ensures old(Sound(p)) ==> Sound(p)
      ensures old(Armed(p)) ==> rows == old(rows) && Armed(p)
      ensures exposed == old(exposed)
    {
      hide Ran, Shrunk, PaperSlots, Told, Honest, Without, ArmedIn;
      remembered := DropLadder(p, reason, begun, ended);
      PurgedHasNoPaper(old(rows), p);
      if old(Sound(p)) {
        assert ArmedIn(old(Now()), p) == old(Armed(p)) by {
          ArmedMeans(old(Now()), p);
        }
        if ArmedIn(old(Now()), p) {
          SoundStaysSound(old(Now()), Now(), p, []);
        }
        DownIsSound(old(Now()), Now(), p, remembered);
      }
    }

    /** A refresh with its recovery. */
    method Refresh(p: Pair, buys: seq<Order>, sells: seq<Order>, ended: int) returns (ok: bool, ghost end: End)
      requires Valid()
      modifies this
      ensures Valid()
      ensures !ok ==> p in last && last[p] == Gone(ended, "error")
      ensures ok <==> end.Replaced?
      ensures !ok ==> end.Failed?
      ensures ok ==> Now() == ReplacedMemory(old(Now()), p, buys, sells, ended)
      ensures Ran(replies, old(asked), if ok then asked else end.at, ReplaceCost(old(Now()), p, buys, sells), ok)
      ensures !ok ==> LadderDown(old(Now()), Now(), p, end.recovered)
      ensures OthersKept(old(rows), rows, p, PreviousIds(old(lastIds), p), buys, sells)
      ensures !ok ==> end.wrote == PastFirstWrite(BareCost(old(Now()), p, buys, sells), old(asked), end.at)
      ensures !ok ==> end.at < asked && OthersKept(old(rows), end.torn, p, PreviousIds(old(lastIds), p), buys, sells)
      ensures !ok && !end.recovered ==> LeftEmptyIff(end.torn, rows, p, end.at, asked)
      ensures old(Sound(p)) ==> (Sound(p) <==> !(old(Armed(p)) && Spoils(end, p, asked, LastReply())))
      ensures !ok && end.wrote && old(Armed(p)) && !replies(end.at).Done? ==> !Sound(p) && Armed(p)
    {
      hide Ran, ReplaceCost, BareCost, OthersKept, Shrunk, PaperSlots, Told, Honest, Refreshed, Emptied, Exposure, Cleared;
      ghost var m0, wrote, recovered := Now(), false, false;
      ok, wrote := ReplaceLadder(p, buys, sells, ended);
      if ok {
        end := Replaced;
        return;
      }
      ghost var m1, at := Now(), asked;
      recovered := Recover(p, ended);
      end := Failed(wrote, at, m1.rows, recovered);
      ShrinkKeepsOthers(m0.rows, m1.rows, rows, p, PreviousIds(m0.lastIds, p), buys, sells);
      InterruptedIsSound(m0, m1, Now(), p, PreviousIds(m0.lastIds, p), wrote, recovered);
    }

    /** What an interruption leaves, and when it leaves some of the new ladder. */
    ghost predicate Interrupted(end: End, market: Market, m: Memory, p: Pair, from: nat)
      requires end.Failed?
    {
      && OthersKept(m.rows, end.torn, p, PreviousIds(m.lastIds, p), BuysOf(market), SellsOf(market))
      && (end.wrote <==> market.Fit? && PastFirstWrite(BareCost(m, p, market.buys, market.sells), from + 1, end.at))
    }

    /** One cycle of a pair, from the market to the books. It leaves everybody else's orders
        alone. It ends with the new ladder in place exactly when the market is fit and no command
        fails; otherwise the display is told there is none. The skip gate, right before the cycle,
        is right after it if and only if the gate was not armed, or no order was written before an
        interruption, or the recovery got through or failed having deleted everything. */
    method SyncPair(p: Pair, market: Market, begun: int, ended: int) returns (ok: bool, ghost end: End)
      requires Valid()
      modifies this
      ensures Valid()
      ensures ok <==> end.Replaced?
      ensures ok ==> market.Fit? && Now() == ReplacedMemory(old(Now()), p, market.buys, market.sells, ended)
      ensures ok <==> CycleUp(replies, old(asked), old(Now()), p, market)
      ensures ok ==> p in last && last[p] == Synced(ended, market.buys, market.sells)
      ensures end.Failed? ==> p in last && last[p] == Gone(ended, "error")
      ensures end.Dropped? ==> p in last && last[p].Gone? && last[p].at in {begun, ended}
                               && last[p].reason == if market.Unfit? then market.reason else "no_admin_liquidity"
      ensures !ok ==> exists remembered :: LadderDown(old(Now()), Now(), p, remembered)
      ensures SameButFor(old(Now()), Now(), p)
      ensures OthersKept(old(rows), rows, p, PreviousIds(old(lastIds), p), BuysOf(market), SellsOf(market))
      ensures market.Unfit? ==> end.Dropped?
      ensures market.Unfit? && old(Armed(p)) ==> rows == old(rows) && Armed(p)
      ensures market.Fit? ==> !end.Dropped?
      ensures end.Failed? ==> FailedBefore(replies, old(asked), end.at)
      ensures end.Failed? ==> Interrupted(end, market, old(Now()), p, old(asked))
      ensures end.Failed? && !end.recovered ==> LeftEmptyIff(end.torn, rows, p, end.at, asked)
      ensures old(Sound(p)) ==> (Sound(p) <==> !(old(Armed(p)) && Spoils(end, p, asked, LastReply())))
      ensures end.Failed? && end.wrote && old(Armed(p)) && !replies(end.at).Done? ==> !Sound(p) && Armed(p)
    {
      hide Ran, ReplaceCost, BareCost, OthersKept, Shrunk, PaperSlots, Honest, SoundIn, ArmedIn, LadderDown,
           ReplacedMemory, CycleUp, FailedBefore, Up, SameButFor, Emptied, LeftEmptyIff;
      ghost var m0, first, remembered := Now(), asked, false;
      ok, end := false, Dropped;
      CycleNeeds(replies, first, m0, p, market);
      if market.Unfit? {
        remembered := Drop(p, market.reason, begun, ended);
        DownTouchesOne(m0, Now(), p, remembered);
        DroppingKeepsOthers(m0.rows, rows, p, PreviousIds(m0.lastIds, p));
        return;
      }
      var admin := Ask();
      if !admin.Done? {
        ghost var at := asked;
        FailsAtOnce(replies, first);
        remembered := Recover(p, ended);
        end := Failed(false, at, m0.rows, remembered);
        NothingKept(m0.rows, p, PreviousIds(m0.lastIds, p), BuysOf(market), SellsOf(market));
        RecoveredIsSound(m0, Now(), p, remembered);
        DownTouchesOne(m0, Now(), p, remembered);
        DroppingKeepsAll(m0.rows, rows, p, PreviousIds(m0.lastIds, p), BuysOf(market), SellsOf(market));
        return;
      }
      if market.NoAdmin? {
        remembered := Drop(p, "no_admin_liquidity", begun, ended);
        DownTouchesOne(m0, Now(), p, remembered);
        DroppingKeepsOthers(m0.rows, rows, p, PreviousIds(m0.lastIds, p));
        return;
      }
      ok, end := Refresh(p, market.buys, market.sells, ended);
      if ok {
        ReplacedIs(m0, p, market.buys, market.sells, ended);
        ReplacedTouchesOne(m0, p, market.buys, market.sells, ended);
      } else {
        DownTouchesOne(m0, Now(), p, end.recovered);
      }
      CycleRan(replies, first, if ok then asked else end.at, m0, p, market.buys, market.sells, ok);
    }

    /** The cycle of the engine for one pair: first every other pair's orphaned ladder, then its
        own. `mid` and `from` are the memory and the command count between the two. No pair's gate
        goes wrong but the pair's own, and that exactly as above. */
    method SyncPaperBook(p: Pair, market: Market, begun: int, ended: int)
      returns (ok: bool, ghost end: End, ghost mid: Memory, ghost from: nat)
      requires Valid()
      modifies this
      ensures Valid()
      ensures exists swept ::
                && SweptTo(old(Now()), mid, Orphans(old(lastSyncAt), Some(p), begun), swept)
                && (Up(replies, old(asked), from) ==> swept == Orphans(old(lastSyncAt), Some(p), begun))
      ensures old(asked) <= from && (ok <==> CycleUp(replies, from, mid, p, market)) && (ok <==> end.Replaced?)
      ensures ok ==> market.Fit? && Now() == ReplacedMemory(mid, p, market.buys, market.sells, ended)
      ensures !ok ==> exists remembered :: LadderDown(mid, Now(), p, remembered)
      ensures p in last && last[p] == if ok then Synced(ended, market.buys, market.sells)
                                      else if end.Failed? then Gone(ended, "error")
                                      else Gone(last[p].at, if market.Unfit? then market.reason else "no_admin_liquidity")
      ensures forall q | q != p && old(Sound(q)) :: Sound(q)
      ensures old(Sound(p)) ==> (Sound(p) <==> !(old(Armed(p)) && Spoils(end, p, asked, LastReply())))
      ensures forall s | s in old(rows) && (old(rows)[s].Unreadable? || !old(rows)[s].paper) && s.field !in PreviousIds(old(lastIds), p)
                         && !IsNew(p, BuysOf(market), SellsOf(market), s) :: Stored(rows, s, old(rows)[s])
      ensures market.Unfit? && old(Armed(p)) ==> Armed(p) && PaperSlots(rows, p) == PaperSlots(old(rows), p)
    {
      hide Ran, OthersKept, Shrunk, PaperSlots, Honest, SoundIn, LadderDown, ReplacedMemory, CycleUp, FailedBefore,
           Interrupted, Up, SweptTo, Orphans, IsNew, SameButFor, PreviousIds, Spoils, LeftEmptyIff;
      ghost var m0, orphans := Now(), Orphans(lastSyncAt, Some(p), begun);
      OrphansOf(lastSyncAt, Some(p), begun);
      var swept := SweepOrphanLadders(Some(p), begun);
      mid, from := Now(), asked;
      SweptIsSound(m0, mid, orphans, swept, p);
      ok, end := SyncPair(p, market, begun, ended);
      ghost var named := PreviousIds(m0.lastIds, p);
      forall q | SoundIn(m0, q) && q != p ensures SoundIn(Now(), q) {
        TwoStages(m0, mid, Now(), orphans, swept, p, named, BuysOf(market), SellsOf(market), q);
      }
      forall s | s in m0.rows && !IsPaper(m0.rows[s]) && s.field !in named && !IsNew(p, BuysOf(market), SellsOf(market), s)
        ensures Stored(rows, s, m0.rows[s])
      {
        UsersKept(m0, mid, Now(), orphans, swept, p, named, BuysOf(market), SellsOf(market), s);
      }
    }

    /** A cycle without a pair document only sweeps, and spoils no gate. */
    method SyncWithoutPair(now: int) returns (swept: set<Pair>)
      requires Valid()
      modifies this
      ensures Valid()
      ensures SweptTo(old(Now()), Now(), Orphans(old(lastSyncAt), None, now), swept)
      ensures forall q | old(Sound(q)) :: Sound(q)
    {
      hide Up, SweptTo, Orphans, SoundIn, Honest;
      ghost var m0, orphans := Now(), Orphans(lastSyncAt, None, now);
      OrphansOf(lastSyncAt, None, now);
      swept := SweepOrphanLadders(None, now);
      forall q | SoundIn(m0, q) ensures SoundIn(Now(), q) {
        SweptIsSound(m0, Now(), orphans, swept, q);
      }
    }
  }

  /** Redis is down for two commands. */
  function Outage(i: nat): Reply { if i == 6 || i == 7 then Refused else Done }

  lemma PurgedInTime(ok: bool, end: nat)
    requires Ran(Outage, 0, end, 2 + |PaperSlots(map[], "pair")|, ok)
    ensures ok && end == 2
  {
    assert PaperSlots(map[], "pair") == {};
    assert Outage(0) == Outage(1) == Done;
  }

  const ONE_EACH: Market := Fit([Order("b", 1.0, 1.0)], [Order("s", 2.0, 1.0)])

  lemma CutBetweenWrites(m: Memory, end: End)
    requires m.rows == map[] && "pair" !in m.lastIds
    ensures !CycleUp(Outage, 2, m, "pair", ONE_EACH)
    ensures end.Failed? && FailedBefore(Outage, 2, end.at) ==> end.at == 7
    ensures BareCost(m, "pair", ONE_EACH.buys, ONE_EACH.sells) == 2
  {
    var keep := KeepOf(ONE_EACH.buys, ONE_EACH.sells);
    assert StaleSlots(map[], Buy, "pair", keep) == {} && StaleSlots(map[], Sell, "pair", keep) == {};
    assert ClearCost(map[], "pair", [], keep) == 2;
    assert ReplaceCost(m, "pair", ONE_EACH.buys, ONE_EACH.sells) == 4;
    assert Outage(6) == Refused;
  }

  /** A pair is purged, and its next refresh is cut off between its two writes with redis still
      down for the recovery: the gate is armed, and wrong. */
  method Strand() returns (e: Engine)
    ensures fresh(e) && e.Valid() && e.Armed("pair") && !e.Sound("pair")
  {
    hide Ran, CycleUp, FailedBefore, BareCost, PaperSlots, SoundIn, OthersKept, Without, Shrunk, LadderDown, SameButFor,
         Spoils;
    e := new Engine(Outage, map[]);
    var purged := e.PurgePaperBook("pair", "pair_ineligible", 0, 0);
    PurgedInTime(purged, e.asked);
    NothingLeft(e.rows);
    ghost var m := e.Now();
    var ok, end := e.SyncPair("pair", ONE_EACH, 0, 0);
    CutBetweenWrites(m, end);
  }

  lemma NothingLeft(rows: Rows)
    requires Shrunk(map[], rows, "pair", [])
    ensures rows == map[]
  {
    assert forall s: Slot :: !Stored(map[], s, Unreadable);
    assert rows.Keys == {};
  }

  /** From then on no cycle of the ineligible pair removes the order that was written, however
      many there are. */
  method StrandedLadder(cycles: nat) returns (e: Engine)
    ensures fresh(e) && e.Valid() && PaperSlots(e.rows, "pair") != {} && !e.Sound("pair")
  {
    e := Strand();
    assert PaperSlots(e.rows, "pair") != {};
    hide PaperSlots;
    var cycle := 0;
    while cycle < cycles
      invariant fresh(e) && e.Valid() && e.Armed("pair") && PaperSlots(e.rows, "pair") != {}
    {
      var _, _, _, _ := e.SyncPaperBook("pair", Unfit("pair_ineligible"), cycle, cycle);
      cycle := cycle + 1;
    }
  }
}

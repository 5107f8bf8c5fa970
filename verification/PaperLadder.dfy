/** The synthetic ladder: live depth, grouped until each group clears a minimum notional,
    each group quoted at the worst price merged into it. Whatever a taker values, as long
    as a better price is never valued less, the ladder is worth at most the depth. */
module PaperLadder {
  import opened MarketWalk

  const MAX_LEVELS: nat := 12

  /** The knobs of the build: minimum notional of a group, size multiplier, and the number
      of decimals the pair's base coin carries. */
  datatype Config = Config(minNotional: real, sizeMult: real, digits: nat)

  function Pow10(d: nat): (r: real)
    ensures r >= 1.0
  {
    if d == 0 then 1.0 else 10.0 * Pow10(d - 1)
  }

  /** Cut a magnitude down to a multiple of 1 / unit. */
  function Cut(x: real, unit: real): (r: real)
    requires x >= 0.0 && unit >= 1.0
    ensures 0.0 <= r <= x
  {
    CutAtMost(x, unit);
    Over(Times(x, unit).Floor as real, unit)
  }

  /** Cut to `d` decimals, towards zero. */
  function TruncDown(x: real, d: nat): (r: real)
    ensures x >= 0.0 ==> 0.0 <= r <= x
    ensures x <= 0.0 ==> r <= 0.0
  {
    if x < 0.0 then -Cut(-x, Pow10(d)) else Cut(x, Pow10(d))
  }

  lemma CutAtMost(x: real, unit: real)
    requires x >= 0.0 && unit >= 1.0
    ensures 0.0 <= Over(Times(x, unit).Floor as real, unit) <= x
  {
    var r := Over(Times(x, unit).Floor as real, unit);
    assert Times(r, unit) == Times(x, unit).Floor as real;
    Product(x, unit);
    Unit(unit, x);
    Unit(unit, r);
    ScaleLe(unit, r, x);
    ScaleLe(unit, 0.0, r);
  }

  predicate Sane(l: Level) { l.price > 0.0 && l.qty > 0.0 }

  /** The depth levels the build reads at all. */
  function SaneLevels(levels: seq<Level>): (r: seq<Level>)
    ensures Positive(r)
  {
    if levels == [] then []
    else (if Sane(levels[0]) then [levels[0]] else []) + SaneLevels(levels[1..])
  }

  /** A level is read exactly if its price and its quantity are positive, as often as it is there. */
  lemma {:induction false} SaneLevelsAre(levels: seq<Level>, l: Level)
    ensures multiset(SaneLevels(levels))[l] == if l.price > 0.0 && l.qty > 0.0 then multiset(levels)[l] else 0
  {
    if levels != [] {
      assert levels == [levels[0]] + levels[1..];
      SaneLevelsAre(levels[1..], l);
    }
  }

  /** The size quoted for a closed group. */
  function Size(groupQty: real, cfg: Config): real { TruncDown(Times(groupQty, cfg.sizeMult), cfg.digits) }

  /** The ladder built from `levels` when a group of the given quantity and notional is
      already open and `room` orders may still be placed. */
  function Grouped(levels: seq<Level>, groupQty: real, groupNotional: real, room: nat, cfg: Config): (r: seq<Level>)
    ensures Positive(r) && |r| <= room
  {
    if levels == [] || room == 0 then []
    else if !Sane(levels[0]) then Grouped(levels[1..], groupQty, groupNotional, room, cfg)
    else
      var l := levels[0];
      var q, n := groupQty + l.qty, groupNotional + Times(l.price, l.qty);
      if n < cfg.minNotional then Grouped(levels[1..], q, n, room, cfg)
      else if Size(q, cfg) > 0.0 then
        [Level(l.price, Size(q, cfg))] + Grouped(levels[1..], 0.0, 0.0, room - 1, cfg)
      else Grouped(levels[1..], 0.0, 0.0, room, cfg)
  }

  function Ladder(levels: seq<Level>, cfg: Config): (r: seq<Level>)
    ensures Positive(r) && |r| <= MAX_LEVELS
  {
    Grouped(levels, 0.0, 0.0, MAX_LEVELS, cfg)
  }

  /** The build itself: one pass with three accumulators. `ready` is false when the pair
      document or the house account is missing. */
  method BuildPaperOrders(ready: bool, levels: seq<Level>, cfg: Config) returns (orders: seq<Level>)
    ensures orders == if ready then Ladder(levels, cfg) else []
  {
    hide Times, Size, Grouped, Positive, Ladder, TruncDown, Pow10;
    orders := [];
    LadderIsGrouped(levels, cfg);
    NothingMerged([], 0.0, 0.0, MAX_LEVELS, cfg);
    if !ready || |levels| == 0 {
      return;
    }
    var groupQty, groupNotional, groupPrice := 0.0, 0.0, 0.0;
    var i := 0;
    assert levels[0..] == levels;
    ghost var rest := Grouped(levels, 0.0, 0.0, MAX_LEVELS, cfg);
    ghost var whole := rest;
    while i < |levels| && |orders| < MAX_LEVELS
      invariant 0 <= i <= |levels| && |orders| <= MAX_LEVELS
      invariant rest == Grouped(levels[i..], groupQty, groupNotional, MAX_LEVELS - |orders|, cfg)
      invariant orders + rest == whole
    {
      var l := levels[i];
      LevelMergedAt(levels, i, groupQty, groupNotional, MAX_LEVELS - |orders|, cfg);
      i := i + 1;
      if !(l.price > 0.0) || !(l.qty > 0.0) {
        continue;
      }
      groupQty := groupQty + l.qty;
      groupNotional := groupNotional + Times(l.price, l.qty);
      groupPrice := l.price;
      if groupNotional < cfg.minNotional {
        continue;
      }
      var qty := Size(groupQty, cfg);
      groupQty, groupNotional := 0.0, 0.0;
      if !(qty > 0.0) {
        continue;
      }
      ghost var more := Grouped(levels[i..], 0.0, 0.0, MAX_LEVELS - |orders| - 1, cfg);
      assert rest == [Level(groupPrice, qty)] + more;
      Regroup(orders, Level(groupPrice, qty), more);
      orders, rest := orders + [Level(groupPrice, qty)], more;
    }
    NothingMerged(levels[i..], groupQty, groupNotional, MAX_LEVELS - |orders|, cfg);
  }

  lemma Regroup(a: seq<Level>, l: Level, b: seq<Level>)
    ensures a + ([l] + b) == (a + [l]) + b
  {}

  lemma LadderIsGrouped(levels: seq<Level>, cfg: Config)
    ensures Ladder(levels, cfg) == Grouped(levels, 0.0, 0.0, MAX_LEVELS, cfg)
  {}

  lemma NothingMerged(levels: seq<Level>, groupQty: real, groupNotional: real, room: nat, cfg: Config)
    requires levels == [] || room == 0
    ensures Grouped(levels, groupQty, groupNotional, room, cfg) == []
  {}

  lemma LevelMergedAt(levels: seq<Level>, i: nat, groupQty: real, groupNotional: real, room: nat, cfg: Config)
    requires i < |levels| && room > 0
    ensures var l, rest := levels[i], levels[i + 1..];
            var q, n := groupQty + l.qty, groupNotional + Times(l.price, l.qty);
            Grouped(levels[i..], groupQty, groupNotional, room, cfg) ==
            if !Sane(l) then Grouped(rest, groupQty, groupNotional, room, cfg)
            else if n < cfg.minNotional then Grouped(rest, q, n, room, cfg)
            else if Size(q, cfg) > 0.0 then [Level(l.price, Size(q, cfg))] + Grouped(rest, 0.0, 0.0, room - 1, cfg)
            else Grouped(rest, 0.0, 0.0, room, cfg)
  {
    assert levels[i..][0] == levels[i] && levels[i..][1..] == levels[i + 1..];
    OneLevelMerged(levels[i..], groupQty, groupNotional, room, cfg);
  }

  lemma OneLevelMerged(levels: seq<Level>, groupQty: real, groupNotional: real, room: nat, cfg: Config)
    requires levels != [] && room > 0
    ensures var l, rest := levels[0], levels[1..];
            var q, n := groupQty + l.qty, groupNotional + Times(l.price, l.qty);
            Grouped(levels, groupQty, groupNotional, room, cfg) ==
            if !Sane(l) then Grouped(rest, groupQty, groupNotional, room, cfg)
            else if n < cfg.minNotional then Grouped(rest, q, n, room, cfg)
            else if Size(q, cfg) > 0.0 then [Level(l.price, Size(q, cfg))] + Grouped(rest, 0.0, 0.0, room - 1, cfg)
            else Grouped(rest, 0.0, 0.0, room, cfg)
  {
    hide Times, Size;
  }

  // ---------------------------------------------------------------- never better than the depth

  /** A valuation of prices that never prefers a worse one. */
  ghost predicate Prefers(side: Side, g: real -> real) {
    && (forall p, q | AsGood(side, p, q) :: g(p) >= g(q))
    && (forall p :: g(p) >= 0.0)
  }

  lemma ScaledDown(q: real, cfg: Config, v: real)
    requires q >= 0.0 && v >= 0.0 && cfg.sizeMult <= 1.0
    ensures Size(q, cfg) > 0.0 ==> Times(Size(q, cfg), v) <= Times(q, v)
  {
    Product(q, 1.0 - cfg.sizeMult);
    assert Times(q, cfg.sizeMult) <= q;
    if Size(q, cfg) > 0.0 {
      assert Size(q, cfg) <= q;
      Product(q - Size(q, cfg), v);
    }
  }

  lemma Merge(a: real, b: real, v: real, w: real)
    requires a >= 0.0 && v >= w >= 0.0
    ensures Times(a + b, v) == Times(a, v) + Times(b, v)
    ensures Times(a, w) <= Times(a, v) && Times(a, v) >= 0.0
  {
    Product(a, v - w);
    Product(a, v);
  }

  /** What an open group may still count for: its quantity at the next price to be merged. */
  function Carry(levels: seq<Level>, groupQty: real, g: real -> real): real {
    if levels == [] then 0.0 else Times(groupQty, g(levels[0].price))
  }

  lemma {:induction false} GroupedWorthAtMost(
      side: Side, levels: seq<Level>, groupQty: real, groupNotional: real, room: nat, cfg: Config, g: real -> real)
    requires BestFirst(side, SaneLevels(levels)) && Prefers(side, g) && groupQty >= 0.0 && cfg.sizeMult <= 1.0
    ensures Worth(Grouped(levels, groupQty, groupNotional, room, cfg), g)
         <= Worth(SaneLevels(levels), g) + Carry(SaneLevels(levels), groupQty, g)
  {
    hide Times, Size, Grouped, Worth, BestFirst, Positive;
    var depth, rest := SaneLevels(levels), if levels == [] then [] else SaneLevels(levels[1..]);
    if levels == [] || room == 0 {
      NothingMerged(levels, groupQty, groupNotional, room, cfg);
      NothingIsWorthNothing(depth, g);
      if depth != [] {
        Product(groupQty, g(depth[0].price));
      }
      return;
    }
    OneLevelMerged(levels, groupQty, groupNotional, room, cfg);
    if !Sane(levels[0]) {
      assert depth == rest;
      GroupedWorthAtMost(side, levels[1..], groupQty, groupNotional, room, cfg, g);
    } else {
      var l := levels[0];
      assert depth == [l] + rest;
      HeadIsBest(side, l, rest);
      var v, w := g(l.price), if rest == [] then 0.0 else g(rest[0].price);
      var q, n := groupQty + l.qty, groupNotional + Times(l.price, l.qty);
      WorthOfHead(l, rest, g);
      Merge(groupQty, l.qty, v, w);
      Merge(q, 0.0, v, w);
      Unit(w, 0.0);
      if n < cfg.minNotional {
        GroupedWorthAtMost(side, levels[1..], q, n, room, cfg, g);
      } else {
        var places := Size(q, cfg) > 0.0;
        ScaledDown(q, cfg, v);
        GroupedWorthAtMost(side, levels[1..], 0.0, 0.0, if places then room - 1 else room, cfg, g);
        if places {
          WorthOfHead(Level(l.price, Size(q, cfg)), Grouped(levels[1..], 0.0, 0.0, room - 1, cfg), g);
        }
      }
    }
  }

  lemma NothingIsWorthNothing(levels: seq<Level>, g: real -> real)
    requires Positive(levels) && forall p :: g(p) >= 0.0
    ensures Worth([], g) == 0.0 <= Worth(levels, g)
  {
    WorthNonNegative(levels, g);
  }

  lemma WorthOfHead(l: Level, rest: seq<Level>, g: real -> real)
    ensures Worth([l] + rest, g) == Times(l.qty, g(l.price)) + Worth(rest, g)
  {
    hide Times;
    assert ([l] + rest)[1..] == rest;
  }

  lemma HeadIsBest(side: Side, l: Level, rest: seq<Level>)
    requires BestFirst(side, [l] + rest)
    ensures BestFirst(side, rest)
    ensures rest != [] ==> AsGood(side, l.price, rest[0].price)
  {
    var all := [l] + rest;
    assert all[1..] == rest;
    if rest != [] {
      assert AsGood(side, all[0].price, all[1].price);
    }
  }

  /** The ladder is worth at most the depth, to any taker who never prefers a worse price. */
  lemma LadderWorthAtMost(side: Side, levels: seq<Level>, cfg: Config, g: real -> real)
    requires BestFirst(side, SaneLevels(levels)) && Prefers(side, g) && cfg.sizeMult <= 1.0
    ensures Worth(Ladder(levels, cfg), g) <= Worth(SaneLevels(levels), g)
  {
    GroupedWorthAtMost(side, levels, 0.0, 0.0, MAX_LEVELS, cfg, g);
    assert Carry(SaneLevels(levels), 0.0, g) == 0.0;
  }

  /** Counts a unit exactly when its price is at least as good as `limit`. */
  function Within(side: Side, limit: real): real -> real {
    p => if AsGood(side, p, limit) then 1.0 else 0.0
  }

  /** The quantity on offer at `limit` or better. */
  function QtyWithin(side: Side, levels: seq<Level>, limit: real): real { Worth(levels, Within(side, limit)) }

  /** At every price threshold the ladder offers at most what the depth offers. */
  lemma LadderNeverDeeper(side: Side, levels: seq<Level>, cfg: Config, limit: real)
    requires BestFirst(side, SaneLevels(levels)) && cfg.sizeMult <= 1.0
    ensures QtyWithin(side, Ladder(levels, cfg), limit) <= QtyWithin(side, SaneLevels(levels), limit)
  {
    LadderWorthAtMost(side, levels, cfg, Within(side, limit));
  }

  lemma LadderGains(side: Side, levels: seq<Level>, cfg: Config)
    requires BestFirst(side, SaneLevels(levels)) && cfg.sizeMult <= 1.0
    ensures GainsAtMost(side, Ladder(levels, cfg), SaneLevels(levels))
    ensures Qty(Ladder(levels, cfg)) <= Qty(SaneLevels(levels))
  {
    hide Ladder, SaneLevels, BestFirst, Worth, Prefers, Gain;
    UnitsArePreferences(side);
    LadderWorthAtMost(side, levels, cfg, One());
    forall k: real
      ensures Worth(Ladder(levels, cfg), Gain(side, k)) <= Worth(SaneLevels(levels), Gain(side, k))
    {
      GainsArePreferences(side, k);
      LadderWorthAtMost(side, levels, cfg, Gain(side, k));
    }
  }

  lemma UnitsArePreferences(side: Side)
    ensures Prefers(side, One())
  {}

  lemma GainsArePreferences(side: Side, k: real)
    ensures Prefers(side, Gain(side, k))
  {}

  /** However a buyer splits an order over the ask ladder, the same money buys at least as
      much from the depth. */
  lemma BuyingFromLadderNeverCheaper(levels: seq<Level>, cfg: Config, x: seq<real>)
    requires BestFirst(Buy, SaneLevels(levels)) && cfg.sizeMult <= 1.0
    requires Allocation(Ladder(levels, cfg), x)
    ensures Taken(x) <= Walk(SaneLevels(levels), Paid(Ladder(levels, cfg), x)).qty
  {
    var ladder, depth := Ladder(levels, cfg), SaneLevels(levels);
    var n := Paid(ladder, x);
    LadderGains(Buy, levels, cfg);
    PaidNonNegative(ladder, x);
    TakenAtMostQty(ladder, x);
    if n > Notional(depth) {
      WalkTakesAll(depth, n);
    } else if n == 0.0 {
      NothingForNothing(ladder, x);
    } else {
      BuyAgainstBetterBook(ladder, depth, x, n);
    }
  }

  lemma BuyAgainstBetterBook(worse: seq<Level>, better: seq<Level>, x: seq<real>, n: real)
    requires Positive(worse) && Positive(better) && BestFirst(Buy, better)
    requires Allocation(worse, x) && Paid(worse, x) == n && 0.0 < n <= Notional(better)
    requires GainsAtMost(Buy, worse, better)
    ensures Taken(x) <= Walk(better, n).qty
  {
    hide Times, Walk, Worth, Gain, Marginal, BestFirst, Positive, Paid, Taken, Allocation, Notional, GainsAtMost;
    WalkAttainsBound(Buy, better, n);
    var k := Marginal(better, n);
    GainsAtMostAt(Buy, worse, better, k);
    AllocationBound(Buy, worse, x, k);
    ScaleLe(k, Taken(x), Walk(better, n).qty);
  }

  /** However a seller splits an order over the bid ladder, the depth pays the same money
      for no more base. */
  lemma SellingIntoLadderNeverRicher(levels: seq<Level>, cfg: Config, x: seq<real>)
    requires BestFirst(Sell, SaneLevels(levels)) && cfg.sizeMult <= 1.0
    requires Allocation(Ladder(levels, cfg), x)
    ensures var n := Paid(Ladder(levels, cfg), x);
            n <= Notional(SaneLevels(levels)) && Walk(SaneLevels(levels), n).qty <= Taken(x)
  {
    var ladder, depth := Ladder(levels, cfg), SaneLevels(levels);
    var n := Paid(ladder, x);
    LadderGains(Sell, levels, cfg);
    PaidNonNegative(ladder, x);
    AllocationBound(Sell, ladder, x, 0.0);
    Unit(Taken(x), 0.0);
    GainsAtMostAt(Sell, ladder, depth, 0.0);
    NotionalIsGainOverZero(depth);
    if n > 0.0 {
      SellAgainstBetterBook(ladder, depth, x, n);
    } else {
      TakenNonNegative(x);
    }
  }

  lemma {:induction false} TakenNonNegative(x: seq<real>)
    requires forall i | 0 <= i < |x| :: x[i] >= 0.0
    ensures Taken(x) >= 0.0
  {
    if x != [] {
      TakenNonNegative(x[1..]);
    }
  }

  lemma SellAgainstBetterBook(worse: seq<Level>, better: seq<Level>, x: seq<real>, n: real)
    requires Positive(worse) && Positive(better) && BestFirst(Sell, better)
    requires Allocation(worse, x) && Paid(worse, x) == n && 0.0 < n <= Notional(better)
    requires GainsAtMost(Sell, worse, better)
    ensures Walk(better, n).qty <= Taken(x)
  {
    hide Times, Walk, Worth, Gain, Marginal, BestFirst, Positive, Paid, Taken, Allocation, Notional, GainsAtMost;
    WalkAttainsBound(Sell, better, n);
    var k := Marginal(better, n);
    GainsAtMostAt(Sell, worse, better, k);
    AllocationBound(Sell, worse, x, k);
    ScaleLe(k, Walk(better, n).qty, Taken(x));
  }

  predicate Quoted(levels: seq<Level>, price: real) { exists j :: 0 <= j < |levels| && levels[j].price == price }

  /** The ladder is itself best-first, and quotes only prices the depth quotes. */
  lemma {:induction false} LadderKeepsPriority(
      side: Side, levels: seq<Level>, groupQty: real, groupNotional: real, room: nat, cfg: Config)
    requires BestFirst(side, SaneLevels(levels))
    ensures var r := Grouped(levels, groupQty, groupNotional, room, cfg);
            && BestFirst(side, r)
            && forall i | 0 <= i < |r| :: Quoted(SaneLevels(levels), r[i].price)
  {
    hide Times, Size, Grouped, Positive;
    if levels == [] || room == 0 {
      NothingMerged(levels, groupQty, groupNotional, room, cfg);
      return;
    }
    OneLevelMerged(levels, groupQty, groupNotional, room, cfg);
    var depth, rest := SaneLevels(levels), SaneLevels(levels[1..]);
    if !Sane(levels[0]) {
      assert depth == rest;
      LadderKeepsPriority(side, levels[1..], groupQty, groupNotional, room, cfg);
    } else {
      var l := levels[0];
      assert depth == [l] + rest && depth[1..] == rest;
      var q, n := groupQty + l.qty, groupNotional + Times(l.price, l.qty);
      var closes := n >= cfg.minNotional;
      var places := closes && Size(q, cfg) > 0.0;
      var q', n', room' := if closes then 0.0 else q, if closes then 0.0 else n, if places then room - 1 else room;
      LadderKeepsPriority(side, levels[1..], q', n', room', cfg);
      PriorityOfHead(side, l, rest, Grouped(levels[1..], q', n', room', cfg), Size(q, cfg));
    }
  }

  lemma PriorityOfHead(side: Side, l: Level, rest: seq<Level>, tail: seq<Level>, size: real)
    requires BestFirst(side, [l] + rest) && BestFirst(side, tail)
    requires forall i | 0 <= i < |tail| :: Quoted(rest, tail[i].price)
    ensures BestFirst(side, [Level(l.price, size)] + tail)
    ensures forall i | 0 <= i < |tail| :: Quoted([l] + rest, tail[i].price)
    ensures Quoted([l] + rest, l.price)
  {
    var depth := [l] + rest;
    forall i | 0 <= i < |tail|
      ensures AsGood(side, l.price, tail[i].price) && Quoted(depth, tail[i].price)
    {
      assert Quoted(rest, tail[i].price);
      var j :| 0 <= j < |rest| && rest[j].price == tail[i].price;
      assert depth[j + 1] == rest[j];
      assert AsGood(side, depth[0].price, depth[j + 1].price);
    }
    assert depth[0].price == l.price;
  }

  // ---------------------------------------------------------------- and no less than it should

  /** 10 to the number of decimals, step by step. */
  lemma PowersOfTen(d: nat)
    ensures Pow10(0) == 1.0 && Pow10(1) == 10.0 && Pow10(d + 1) == 10.0 * Pow10(d)
  {}

  predicate Whole(x: real) { x.Floor as real == x }

  /** A size is the scaled quantity cut to the pair's decimals: a whole number of units of the last
      decimal, and less than one of them short. */
  lemma SizeIsCut(q: real, cfg: Config)
    requires q >= 0.0 && cfg.sizeMult >= 0.0
    ensures var size, unit := Size(q, cfg), Pow10(cfg.digits);
            && size <= q * cfg.sizeMult < size + 1.0 / unit
            && Whole(size * unit)
  {
    var x, unit := Times(q, cfg.sizeMult), Pow10(cfg.digits);
    Product(q, cfg.sizeMult);
    assert Size(q, cfg) == Cut(x, unit);
    CutIsClose(x, unit, Size(q, cfg));
  }

  lemma CutIsClose(x: real, unit: real, r: real)
    requires x >= 0.0 && unit >= 1.0 && r == Cut(x, unit)
    ensures x < r + 1.0 / unit && Whole(r * unit)
  {
    Product(x, unit);
    var k: nat := Times(x, unit).Floor;
    Quotient(k as real, unit, r);
    WholeCount(k, r * unit);
    var next := r + 1.0 / unit;
    OneUnitMore(r, unit, k as real);
    if next <= x {
      KeepsOrder(next, x, unit);
    }
  }

  lemma KeepsOrder(a: real, b: real, unit: real)
    requires a <= b && unit > 0.0
    ensures a * unit <= b * unit
  {}

  lemma Quotient(k: real, unit: real, r: real)
    requires unit >= 1.0 && r == k / unit
    ensures r * unit == k
  {}

  lemma OneUnitMore(r: real, unit: real, k: real)
    requires unit >= 1.0 && r * unit == k
    ensures (r + 1.0 / unit) * unit == k + 1.0
  {
    assert 1.0 / unit * unit == 1.0;
  }

  lemma WholeCount(k: nat, x: real)
    requires x == k as real
    ensures Whole(x)
  {
    assert x.Floor == k;
  }

  /** A group closes with the level that brings it to the minimum notional, and not before. */
  predicate Closes(g: seq<Level>, cfg: Config) {
    && g != [] && Notional(g) >= cfg.minNotional
    && (|g| > 1 ==> Notional(g[..|g| - 1]) < cfg.minNotional)
  }

  predicate StaysOpen(g: seq<Level>, cfg: Config) { g == [] || Notional(g) < cfg.minNotional }

  function Concat(groups: seq<seq<Level>>): seq<Level> { if groups == [] then [] else groups[0] + Concat(groups[1..]) }

  predicate AllClose(groups: seq<seq<Level>>, cfg: Config) { forall g | g in groups :: Closes(g, cfg) }

  /** Each closed group is quoted at its last price, in its cut size, unless nothing is left of it. */
  function Quotes(groups: seq<seq<Level>>, cfg: Config): seq<Level>
    requires AllClose(groups, cfg)
  {
    if groups == [] then []
    else
      var g := groups[0];
      (if Size(Qty(g), cfg) > 0.0 then [Level(g[|g| - 1].price, Size(Qty(g), cfg))] else [])
      + Quotes(groups[1..], cfg)
  }

  lemma OneMoreMerged(open: seq<Level>, l: Level)
    ensures Qty(open + [l]) == Qty(open) + l.qty
    ensures Notional(open + [l]) == Notional(open) + Times(l.price, l.qty)
  {
    WorthAppend(open, [l], One());
    WorthAppend(open, [l], Itself());
    assert [l][1..] == [];
    Unit(l.qty, l.price);
  }

  lemma Prepended(g: seq<Level>, groups: seq<seq<Level>>, cfg: Config)
    requires Closes(g, cfg) && AllClose(groups, cfg)
    ensures AllClose([g] + groups, cfg) && Concat([g] + groups) == g + Concat(groups)
    ensures Quotes([g] + groups, cfg) ==
            (if Size(Qty(g), cfg) > 0.0 then [Level(g[|g| - 1].price, Size(Qty(g), cfg))] else []) + Quotes(groups, cfg)
  {
    assert ([g] + groups)[1..] == groups;
  }

  lemma {:induction false} GroupsFrom(levels: seq<Level>, open: seq<Level>, room: nat, cfg: Config)
    returns (groups: seq<seq<Level>>, rest: seq<Level>)
    requires StaysOpen(open, cfg)
    ensures AllClose(groups, cfg) && Concat(groups) + rest == open + SaneLevels(levels)
    ensures Grouped(levels, Qty(open), Notional(open), room, cfg) == Quotes(groups, cfg)
    ensures |Quotes(groups, cfg)| == room || StaysOpen(rest, cfg)
  {
    hide Size, Times, Closes;
    if levels == [] || room == 0 {
      groups, rest := [], open + SaneLevels(levels);
      assert levels == [] ==> rest == open;
    } else if !Sane(levels[0]) {
      assert SaneLevels(levels) == SaneLevels(levels[1..]);
      groups, rest := GroupsFrom(levels[1..], open, room, cfg);
    } else {
      var l := levels[0];
      var g := open + [l];
      OneMoreMerged(open, l);
      assert open + SaneLevels(levels) == g + SaneLevels(levels[1..]);
      if Notional(g) < cfg.minNotional {
        groups, rest := GroupsFrom(levels[1..], g, room, cfg);
      } else {
        ClosesNow(open, l, cfg);
        NothingOpen();
        var quoted := Size(Qty(g), cfg) > 0.0;
        groups, rest := GroupsFrom(levels[1..], [], if quoted then room - 1 else room, cfg);
        Prepended(g, groups, cfg);
        assert g + (Concat(groups) + rest) == (g + Concat(groups)) + rest;
        assert [] + SaneLevels(levels[1..]) == SaneLevels(levels[1..]);
        groups := [g] + groups;
      }
    }
  }

  lemma NothingOpen()
    ensures Qty([]) == 0.0 && Notional([]) == 0.0
  {}

  lemma ClosesNow(open: seq<Level>, l: Level, cfg: Config)
    requires StaysOpen(open, cfg) && Notional(open + [l]) >= cfg.minNotional
    ensures Closes(open + [l], cfg) && (open + [l])[|open + [l]| - 1] == l
  {
    assert (open + [l])[..|open|] == open;
  }

  /** What the ladder is: the usable depth, best first, cut into groups that each close with the level
      that brings them to the minimum notional; each group quoted at its last price in its cut size;
      as many as there is room for, and none left out before that. */
  lemma LadderIsGroups(levels: seq<Level>, cfg: Config) returns (groups: seq<seq<Level>>, rest: seq<Level>)
    ensures Concat(groups) + rest == SaneLevels(levels) && AllClose(groups, cfg)
    ensures Ladder(levels, cfg) == Quotes(groups, cfg)
    ensures |Ladder(levels, cfg)| == 12 || StaysOpen(rest, cfg)
  {
    NothingOpen();
    groups, rest := GroupsFrom(levels, [], MAX_LEVELS, cfg);
    assert [] + SaneLevels(levels) == SaneLevels(levels);
  }

  /** The scaled quantity of a group, less one unit of the last decimal. */
  function LeastOf(g: seq<Level>, cfg: Config): real { Qty(g) * cfg.sizeMult - 1.0 / Pow10(cfg.digits) }

  function Least(groups: seq<seq<Level>>, cfg: Config): real {
    if groups == [] then 0.0 else LeastOf(groups[0], cfg) + Least(groups[1..], cfg)
  }

  lemma GroupAtLeast(g: seq<Level>, cfg: Config)
    requires Qty(g) >= 0.0 && cfg.sizeMult >= 0.0
    ensures Size(Qty(g), cfg) >= LeastOf(g, cfg)
  {
    SizeIsCut(Qty(g), cfg);
  }

  lemma {:induction false} QuotesAtLeast(groups: seq<seq<Level>>, cfg: Config)
    requires AllClose(groups, cfg) && cfg.sizeMult >= 0.0 && forall g | g in groups :: Qty(g) >= 0.0
    ensures Qty(Quotes(groups, cfg)) >= Least(groups, cfg)
  {
    hide Size, Closes, LeastOf, Qty;
    if groups == [] {
      NothingOpen();
    } else {
      var g, more := groups[0], Quotes(groups[1..], cfg);
      assert g in groups && forall h | h in groups[1..] :: h in groups;
      QuotesAtLeast(groups[1..], cfg);
      GroupAtLeast(g, cfg);
      assert Closes(g, cfg);
      ClosedIsSome(g, cfg);
      FirstQuoted(Level(g[|g| - 1].price, Size(Qty(g), cfg)), more);
      assert [] + more == more;
    }
  }

  lemma ClosedIsSome(g: seq<Level>, cfg: Config)
    requires Closes(g, cfg)
    ensures g != []
  {}

  lemma FirstQuoted(l: Level, more: seq<Level>)
    ensures Qty([l] + more) == l.qty + Qty(more)
  {
    assert ([l] + more)[1..] == more;
    Unit(l.qty, 1.0);
  }

  lemma {:induction false} GroupsOfPositive(groups: seq<seq<Level>>, rest: seq<Level>)
    requires Positive(Concat(groups) + rest)
    ensures forall g | g in groups :: Positive(g) && Qty(g) >= 0.0
  {
    if groups != [] {
      var all := Concat(groups) + rest;
      assert forall i | 0 <= i < |groups[0]| :: groups[0][i] == all[i];
      WorthNonNegative(groups[0], One());
      var tail := Concat(groups[1..]) + rest;
      assert forall i | 0 <= i < |tail| :: tail[i] == all[|groups[0]| + i];
      GroupsOfPositive(groups[1..], rest);
    }
  }

  /** The ladder quotes at least the scaled quantity of the groups it closes, less one unit of the
      last decimal for each. */
  lemma LadderQuotesEnough(levels: seq<Level>, cfg: Config) returns (groups: seq<seq<Level>>, rest: seq<Level>)
    requires cfg.sizeMult >= 0.0
    ensures Concat(groups) + rest == SaneLevels(levels) && AllClose(groups, cfg)
    ensures |Ladder(levels, cfg)| == 12 || StaysOpen(rest, cfg)
    ensures Qty(Ladder(levels, cfg)) >= Least(groups, cfg)
  {
    groups, rest := LadderIsGroups(levels, cfg);
    GroupsOfPositive(groups, rest);
    QuotesAtLeast(groups, cfg);
  }
}

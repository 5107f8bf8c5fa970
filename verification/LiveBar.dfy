/** The live candle: trades arrive out of order and republished, and are folded one at a time
    into the open bar behind a bounded memory of trade keys. */
module LiveBar {
  import opened BarTime
  import opened Options

  type Key = string

  /** A trade as the fold reads it. `None` is a number that cannot be read. */
  datatype Trade = Trade(key: Key, price: Option<real>, qty: Option<real>, time: Option<int>)

  datatype Bar = Bar(time: int, open: real, high: real, low: real, close: real, volume: real)

  /** The open bar, and the keys remembered, oldest first. */
  datatype State = State(bar: Option<Bar>, seen: seq<Key>)

  const SEEN_LIMIT: nat := 1000

  function Size(t: Trade): real { if t.qty.Some? then t.qty.value else 0.0 }

  predicate Usable(t: Trade, r: Resolution) { t.price.Some? && t.time.Some? && Supported(r) }

  function Bucket(t: Trade, r: Resolution): int
    requires Usable(t, r)
  {
    BarTimeFor(t.time.value, r)
  }

  function StartBar(time: int, price: real, size: real): Bar { Bar(time, price, price, price, price, size) }

  function FoldTrade(b: Bar, price: real, size: real): Bar {
    Bar(b.time, b.open, if b.high >= price then b.high else price, if b.low <= price then b.low else price,
        price, b.volume + size)
  }

  function Remember(seen: seq<Key>, k: Key): seq<Key> {
    if |seen| + 1 > SEEN_LIMIT then (seen + [k])[1..] else seen + [k]
  }

  /** The bar after a trade that is usable and new. */
  function Folded(bar: Option<Bar>, t: Trade, r: Resolution): Option<Bar>
    requires Usable(t, r)
  {
    var b := Bucket(t, r);
    if bar.None? then Some(StartBar(b, t.price.value, Size(t)))
    else
      var open := BarTimeFor(bar.value.time, r);
      if b < open then bar
      else if b == open then Some(FoldTrade(bar.value, t.price.value, Size(t)))
      else Some(StartBar(b, t.price.value, Size(t)))
  }

  predicate TooOld(bar: Option<Bar>, t: Trade, r: Resolution)
    requires Usable(t, r)
  {
    bar.Some? && Bucket(t, r) < BarTimeFor(bar.value.time, r)
  }

  /** One trade: the next state, and the bar handed out if the trade changed it. */
  function Accept(s: State, t: Trade, r: Resolution): (State, Option<Bar>) {
    if t.key in s.seen || !Usable(t, r) then (s, None)
    else
      var bar := Folded(s.bar, t, r);
      (State(bar, Remember(s.seen, t.key)), if TooOld(s.bar, t, r) then None else bar)
  }

  /** A bar from history, adopted only if it is newer. */
  function Seed(s: State, bar: Bar): State {
    if s.bar.Some? && bar.time <= s.bar.value.time then s else s.(bar := Some(bar))
  }

  // ---------------------------------------------------------------- the builder

  class LiveBarBuilder {
    const resolution: Resolution
    var bar: Option<Bar>
    var seen: set<Key>
    var seenOrder: seq<Key>

    predicate Valid()
      reads this
    {
      && seen == (set k | k in seenOrder)
      && |seenOrder| <= SEEN_LIMIT
      && forall i, j | 0 <= i < j < |seenOrder| :: seenOrder[i] != seenOrder[j]
    }

    function View(): State
      reads this
    {
      State(bar, seenOrder)
    }

    constructor (resolution: Resolution)
      ensures Valid() && View() == State(None, []) && this.resolution == resolution
    {
      this.resolution := resolution;
      bar, seen, seenOrder := None, {}, [];
    }

    method SeedWith(b: Bar)
      requires Valid()
      modifies this
      ensures Valid() && View() == Seed(old(View()), b)
      ensures seenOrder == old(seenOrder)
      ensures bar == if old(bar).None? || old(bar).value.time < b.time then Some(b) else old(bar)
    {
      if bar.Some? && b.time <= bar.value.time {
        return;
      }
      bar := Some(b);
    }

    method RememberKey(key: Key)
      requires Valid() && key !in seen
      modifies this`seen, this`seenOrder
      ensures Valid() && seenOrder == Remember(old(seenOrder), key)
      ensures seenOrder == if |old(seenOrder)| == 1000 then old(seenOrder)[1..] + [key] else old(seenOrder) + [key]
    {
      seen := seen + {key};
      seenOrder := seenOrder + [key];
      ghost var all := seenOrder;
      assert forall k :: k in all <==> k in old(seenOrder) || k == key;
      if |seenOrder| > SEEN_LIMIT {
        assert all == [all[0]] + all[1..];
        assert forall k :: k in all <==> k in all[1..] || k == all[0];
        assert all[0] !in all[1..];
        seen := seen - {seenOrder[0]};
        seenOrder := seenOrder[1..];
      }
    }

    /** A repeated key, a price or a time that cannot be read, or a resolution without bars. */
    predicate Ignores(s: State, t: Trade) {
      t.key in s.seen || t.price == None || t.time == None || !Supported(resolution)
    }

    /** What any other trade does to the bar, and what is handed out. */
    predicate Applied(was: Option<Bar>, now: Option<Bar>, out: Option<Bar>, t: Trade)
      requires t.price.Some? && t.time.Some? && Supported(resolution)
    {
      var price, size := t.price.value, if t.qty.Some? then t.qty.value else 0.0;
      var bucket := BarTimeFor(t.time.value, resolution);
      if was.Some? && bucket < BarTimeFor(was.value.time, resolution) then now == was && out.None?
      else
        && now.Some? && out == now
        && now.value.close == price
        && if was.Some? && bucket == BarTimeFor(was.value.time, resolution) then
             && now.value.time == was.value.time && now.value.open == was.value.open
             && now.value.volume == was.value.volume + size
             && now.value.high == (if price > was.value.high then price else was.value.high)
             && now.value.low == (if price < was.value.low then price else was.value.low)
           else
             && now.value.time == bucket && now.value.volume == size
             && now.value.open == now.value.high == now.value.low == price
    }

    method AcceptTrade(t: Trade) returns (out: Option<Bar>)
      requires Valid()
      modifies this
      ensures Valid() && (View(), out) == Accept(old(View()), t, resolution)
      ensures Ignores(old(View()), t) ==> out.None? && bar == old(bar) && seenOrder == old(seenOrder)
      ensures !Ignores(old(View()), t) ==>
                && seenOrder == (if |old(seenOrder)| == 1000 then old(seenOrder)[1..] else old(seenOrder)) + [t.key]
                && Applied(old(bar), bar, out, t)
    {
      if t.key in seen || t.price.None? || t.time.None? || !Supported(resolution) {
        return None;
      }
      var bucket := BarTimeFor(t.time.value, resolution);
      RememberKey(t.key);
      var size := if t.qty.Some? then t.qty.value else 0.0;
      if bar.None? {
        bar := Some(StartBar(bucket, t.price.value, size));
        return bar;
      }
      var open := BarTimeFor(bar.value.time, resolution);
      if bucket < open {
        return None;
      }
      bar := Some(if bucket == open then FoldTrade(bar.value, t.price.value, size)
                  else StartBar(bucket, t.price.value, size));
      out := bar;
    }
  }

  // ---------------------------------------------------------------- the tape in one go

  function RunTape(s: State, tape: seq<Trade>, r: Resolution): State {
    if tape == [] then s else Accept(RunTape(s, tape[..|tape| - 1], r), tape[|tape| - 1], r).0
  }

  function KeysOf(ts: seq<Trade>): seq<Key> { seq(|ts|, i requires 0 <= i < |ts| => ts[i].key) }

  predicate Knows(d: seq<Trade>, k: Key) { exists i :: 0 <= i < |d| && d[i].key == k }

  /** The usable trades, each key once, as first met. */
  function Distinct(tape: seq<Trade>, r: Resolution): (d: seq<Trade>)
    ensures forall i | 0 <= i < |d| :: Usable(d[i], r)
    ensures forall i, j | 0 <= i < j < |d| :: d[i].key != d[j].key
  {
    if tape == [] then []
    else
      var d, t := Distinct(tape[..|tape| - 1], r), tape[|tape| - 1];
      if Usable(t, r) && !Knows(d, t.key) then d + [t] else d
  }

  function LastKeys(d: seq<Trade>): seq<Key> {
    if |d| <= SEEN_LIMIT then KeysOf(d) else KeysOf(d[|d| - SEEN_LIMIT..])
  }

  /** A republished trade comes back while it is still among the last remembered. */
  predicate Windowed(tape: seq<Trade>, r: Resolution) {
    tape == [] ||
    var init, t := tape[..|tape| - 1], tape[|tape| - 1];
    && Windowed(init, r)
    && (Usable(t, r) && Knows(Distinct(init, r), t.key) ==> t.key in LastKeys(Distinct(init, r)))
  }

  /** Nothing is forgotten before a thousand distinct trades: the window only matters after that. */
  lemma {:induction false} ShortTapesAreWindowed(tape: seq<Trade>, r: Resolution)
    requires |Distinct(tape, r)| <= 1000
    ensures Windowed(tape, r)
  {
    if tape != [] {
      var init, t := tape[..|tape| - 1], tape[|tape| - 1];
      var d := Distinct(init, r);
      ShortTapesAreWindowed(init, r);
      if k :| 0 <= k < |d| && d[k].key == t.key {
        assert KeysOf(d)[k] == t.key;
      }
    }
  }

  function Volume(d: seq<Trade>, b: int, r: Resolution): real
    requires forall i | 0 <= i < |d| :: Usable(d[i], r)
  {
    if d == [] then 0.0
    else Volume(d[..|d| - 1], b, r) + if Bucket(d[|d| - 1], r) == b then Size(d[|d| - 1]) else 0.0
  }

  /** `bar` is what aggregating the trades in one go gives: the newest bucket, and in it the
      highest and lowest price and the whole volume. */
  predicate Aggregates(bar: Bar, d: seq<Trade>, r: Resolution)
    requires forall i | 0 <= i < |d| :: Usable(d[i], r)
  {
    && (forall i | 0 <= i < |d| :: Bucket(d[i], r) <= bar.time)
    && (forall i | 0 <= i < |d| && Bucket(d[i], r) == bar.time :: bar.low <= d[i].price.value <= bar.high)
    && (exists i :: 0 <= i < |d| && Bucket(d[i], r) == bar.time && d[i].price.value == bar.high)
    && (exists i :: 0 <= i < |d| && Bucket(d[i], r) == bar.time && d[i].price.value == bar.low)
    && bar.volume == Volume(d, bar.time, r)
  }

  lemma {:induction false} NoVolumeAbove(d: seq<Trade>, b: int, r: Resolution)
    requires forall i | 0 <= i < |d| :: Usable(d[i], r) && Bucket(d[i], r) < b
    ensures Volume(d, b, r) == 0.0
  {
    if d != [] {
      var init := d[..|d| - 1];
      assert forall i | 0 <= i < |init| :: init[i] == d[i];
      NoVolumeAbove(init, b, r);
    }
  }

  /** The first trade of a new newest bucket is its whole aggregate. */
  lemma OpeningAggregates(d: seq<Trade>, t: Trade, r: Resolution)
    requires Usable(t, r)
    requires forall i | 0 <= i < |d| :: Usable(d[i], r) && Bucket(d[i], r) < Bucket(t, r)
    ensures Aggregates(StartBar(Bucket(t, r), t.price.value, Size(t)), d + [t], r)
  {
    var all := d + [t];
    assert all[..|all| - 1] == d && all[|d|] == t;
    NoVolumeAbove(d, Bucket(t, r), r);
  }

  lemma LateAggregates(bar: Bar, d: seq<Trade>, t: Trade, r: Resolution)
    requires forall i | 0 <= i < |d| :: Usable(d[i], r)
    requires Usable(t, r) && Aggregates(bar, d, r) && Bucket(t, r) < bar.time
    ensures Aggregates(bar, d + [t], r)
  {
    var all := d + [t];
    assert all[..|all| - 1] == d && all[|d|] == t;
    Carried(bar, d, t, r);
  }

  lemma ExtendingAggregates(bar: Bar, d: seq<Trade>, t: Trade, r: Resolution)
    requires forall i | 0 <= i < |d| :: Usable(d[i], r)
    requires Usable(t, r) && Aggregates(bar, d, r) && Bucket(t, r) == bar.time
    ensures Aggregates(FoldTrade(bar, t.price.value, Size(t)), d + [t], r)
  {
    var all := d + [t];
    assert all[..|all| - 1] == d && all[|d|] == t;
    Carried(bar, d, t, r);
  }

  /** The trades that set the extremes are still there. */
  lemma Carried(bar: Bar, d: seq<Trade>, t: Trade, r: Resolution)
    requires forall i | 0 <= i < |d| :: Usable(d[i], r)
    requires Usable(t, r) && Aggregates(bar, d, r)
    ensures var all := d + [t];
            && (exists i :: 0 <= i < |all| && Bucket(all[i], r) == bar.time && all[i].price.value == bar.high)
            && (exists i :: 0 <= i < |all| && Bucket(all[i], r) == bar.time && all[i].price.value == bar.low)
  {
    var all := d + [t];
    var i :| 0 <= i < |d| && Bucket(d[i], r) == bar.time && d[i].price.value == bar.high;
    var j :| 0 <= j < |d| && Bucket(d[j], r) == bar.time && d[j].price.value == bar.low;
    assert all[i] == d[i] && all[j] == d[j];
  }

  /** Folding one more distinct trade keeps the bar the aggregate of all of them. */
  lemma FoldKeepsAggregate(bar: Option<Bar>, d: seq<Trade>, t: Trade, r: Resolution)
    requires forall i | 0 <= i < |d| :: Usable(d[i], r)
    requires Usable(t, r)
    requires bar.None? <==> d == []
    requires bar.Some? ==> Aggregates(bar.value, d, r) && BarTimeFor(bar.value.time, r) == bar.value.time
    ensures var b := Folded(bar, t, r);
            b.Some? && Aggregates(b.value, d + [t], r) && BarTimeFor(b.value.time, r) == b.value.time
  {
    BarTimeSettles(t.time.value, r);
    assert bar.Some? ==> forall i | 0 <= i < |d| :: Bucket(d[i], r) <= bar.value.time;
    hide Aggregates, BarTimeFor, Volume;
    if bar.None? || Bucket(t, r) > bar.value.time {
      OpeningAggregates(d, t, r);
    } else if Bucket(t, r) < bar.value.time {
      LateAggregates(bar.value, d, t, r);
    } else {
      ExtendingAggregates(bar.value, d, t, r);
    }
  }

  lemma MemoryIsTheLastKeys(d: seq<Trade>, t: Trade)
    ensures Remember(LastKeys(d), t.key) == LastKeys(d + [t])
  {
    var all := d + [t];
    if |d| >= SEEN_LIMIT {
      assert all[|all| - SEEN_LIMIT..] == d[|d| - SEEN_LIMIT..][1..] + [t];
    }
  }

  /** The candle equals the batch: over any windowed tape, from a fresh builder. */
  lemma {:induction false} CandleIsTheAggregate(tape: seq<Trade>, r: Resolution)
    requires Windowed(tape, r)
    ensures var s, d := RunTape(State(None, []), tape, r), Distinct(tape, r);
            && s.seen == LastKeys(d)
            && (s.bar.None? <==> d == [])
            && (s.bar.Some? ==> Aggregates(s.bar.value, d, r) && BarTimeFor(s.bar.value.time, r) == s.bar.value.time)
  {
    if tape != [] {
      var init, t := tape[..|tape| - 1], tape[|tape| - 1];
      CandleIsTheAggregate(init, r);
      var d := Distinct(init, r);
      if Usable(t, r) && !Knows(d, t.key) {
        StillForgotten(d, t.key);
        MemoryIsTheLastKeys(d, t);
        FoldKeepsAggregate(RunTape(State(None, []), init, r).bar, d, t, r);
      }
    }
  }

  lemma StillForgotten(d: seq<Trade>, k: Key)
    requires !Knows(d, k)
    ensures k !in LastKeys(d)
  {
    var from := if |d| <= SEEN_LIMIT then 0 else |d| - SEEN_LIMIT;
    forall i | 0 <= i < |LastKeys(d)| ensures LastKeys(d)[i] != k {
      assert LastKeys(d)[i] == d[from + i].key;
    }
  }

  // ---------------------------------------------------------------- opening and closing price

  /** Trade `i` is the first to arrive in its bucket. */
  predicate FirstIn(d: seq<Trade>, i: nat, b: int, r: Resolution)
    requires forall k | 0 <= k < |d| :: Usable(d[k], r)
  {
    i < |d| && Bucket(d[i], r) == b && forall k | 0 <= k < i :: Bucket(d[k], r) != b
  }

  predicate LastIn(d: seq<Trade>, i: nat, b: int, r: Resolution)
    requires forall k | 0 <= k < |d| :: Usable(d[k], r)
  {
    i < |d| && Bucket(d[i], r) == b && forall k | i < k < |d| :: Bucket(d[k], r) != b
  }

  /** The bar opens at the price of the first trade to arrive in its bucket, and closes at that
      of the last. */
  predicate OpensAndCloses(bar: Bar, d: seq<Trade>, r: Resolution)
    requires forall k | 0 <= k < |d| :: Usable(d[k], r)
  {
    && (exists i :: 0 <= i < |d| && FirstIn(d, i, bar.time, r) && d[i].price.value == bar.open)
    && (exists i :: 0 <= i < |d| && LastIn(d, i, bar.time, r) && d[i].price.value == bar.close)
  }

  lemma OneMoreArrives(d: seq<Trade>, t: Trade, b: int, r: Resolution)
    requires Usable(t, r) && forall k | 0 <= k < |d| :: Usable(d[k], r)
    ensures forall i | 0 <= i < |d| && FirstIn(d, i, b, r) :: FirstIn(d + [t], i, b, r)
    ensures Bucket(t, r) != b ==> forall i | 0 <= i < |d| && LastIn(d, i, b, r) :: LastIn(d + [t], i, b, r)
    ensures Bucket(t, r) == b ==> LastIn(d + [t], |d|, b, r)
    ensures (forall k | 0 <= k < |d| :: Bucket(d[k], r) < b) && Bucket(t, r) == b ==> FirstIn(d + [t], |d|, b, r)
  {
    hide Bucket, Usable;
    var all := d + [t];
    assert forall k | 0 <= k < |d| :: all[k] == d[k];
    assert all[|d|] == t;
  }

  lemma FoldKeepsEnds(bar: Option<Bar>, d: seq<Trade>, t: Trade, r: Resolution)
    requires forall i | 0 <= i < |d| :: Usable(d[i], r)
    requires Usable(t, r)
    requires bar.None? ==> d == []
    requires bar.Some? ==> forall i | 0 <= i < |d| :: Bucket(d[i], r) <= bar.value.time
    requires bar.Some? ==> OpensAndCloses(bar.value, d, r) && BarTimeFor(bar.value.time, r) == bar.value.time
    ensures var b := Folded(bar, t, r);
            b.Some? && OpensAndCloses(b.value, d + [t], r)
  {
    hide FirstIn, LastIn, BarTimeFor;
    var all, b := d + [t], Folded(bar, t, r).value;
    assert forall k | 0 <= k < |d| :: all[k] == d[k];
    assert all[|d|] == t;
    OneMoreArrives(d, t, b.time, r);
  }

  /** Over any windowed tape, from a fresh builder, the candle opens with the first distinct trade
      of its bucket and closes with the last, in the order they arrived. */
  lemma {:induction false} CandleOpensAndCloses(tape: seq<Trade>, r: Resolution)
    requires Windowed(tape, r)
    ensures var s, d := RunTape(State(None, []), tape, r), Distinct(tape, r);
            s.bar.Some? ==> OpensAndCloses(s.bar.value, d, r)
  {
    hide OpensAndCloses, BarTimeFor;
    if tape != [] {
      var init, t := tape[..|tape| - 1], tape[|tape| - 1];
      CandleIsTheAggregate(init, r);
      CandleOpensAndCloses(init, r);
      var d := Distinct(init, r);
      if Usable(t, r) && !Knows(d, t.key) {
        StillForgotten(d, t.key);
        FoldKeepsEnds(RunTape(State(None, []), init, r).bar, d, t, r);
      }
    }
  }

  // ---------------------------------------------------------------- order and republication

  /** The same key always comes with the same data. */
  predicate Consistent(tape: seq<Trade>, r: Resolution) {
    forall i, j | 0 <= i < |tape| && 0 <= j < |tape| && Usable(tape[i], r) && Usable(tape[j], r)
                  && tape[i].key == tape[j].key :: tape[i] == tape[j]
  }

  function UsableOf(tape: seq<Trade>, r: Resolution): set<Trade> { set t | t in tape && Usable(t, r) }

  lemma {:induction false} DistinctKeepsAll(tape: seq<Trade>, r: Resolution)
    requires Consistent(tape, r)
    ensures forall t :: t in Distinct(tape, r) <==> t in UsableOf(tape, r)
  {
    if tape != [] {
      var init, t := tape[..|tape| - 1], tape[|tape| - 1];
      assert forall i | 0 <= i < |init| :: init[i] == tape[i];
      DistinctKeepsAll(init, r);
      var d := Distinct(init, r);
      assert tape == init + [t];
      assert forall x :: x in UsableOf(tape, r) <==> x in UsableOf(init, r) || (x == t && Usable(t, r));
      if Usable(t, r) && Knows(d, t.key) {
        var i :| 0 <= i < |d| && d[i].key == t.key;
        assert d[i] in d && d[i] in tape;
        var j :| 0 <= j < |tape| && tape[j] == d[i];
        assert tape[|tape| - 1] == t == tape[j];
      } else if Usable(t, r) {
        assert Distinct(tape, r) == d + [t];
      }
    }
  }

  lemma VolumeOfOneMore(d: seq<Trade>, t: Trade, b: int, r: Resolution)
    requires Usable(t, r) && forall i | 0 <= i < |d| :: Usable(d[i], r)
    ensures Volume(d + [t], b, r) == Volume(d, b, r) + if Bucket(t, r) == b then Size(t) else 0.0
  {
    hide BarTimeFor;
    var all := d + [t];
    assert all[..|all| - 1] == d && all[|d|] == t;
  }

  lemma {:induction false} VolumeWithout(d: seq<Trade>, j: nat, b: int, r: Resolution)
    requires j < |d| && forall i | 0 <= i < |d| :: Usable(d[i], r)
    ensures Volume(d, b, r) == Volume(d[..j] + d[j + 1..], b, r) + if Bucket(d[j], r) == b then Size(d[j]) else 0.0
  {
    var init, last := d[..|d| - 1], d[|d| - 1];
    WithoutLast(d, j);
    hide Volume, Bucket, Usable, Size;
    VolumeOfOneMore(init, last, b, r);
    if j < |d| - 1 {
      VolumeWithout(init, j, b, r);
      VolumeOfOneMore(init[..j] + init[j + 1..], last, b, r);
    }
  }

  lemma WithoutLast(d: seq<Trade>, j: nat)
    requires j < |d|
    ensures var init, last := d[..|d| - 1], d[|d| - 1];
            && d == init + [last]
            && d[..j] + d[j + 1..] == if j == |d| - 1 then init else (init[..j] + init[j + 1..]) + [last]
  {}

  predicate NoRepeats(d: seq<Trade>) { forall i, j | 0 <= i < j < |d| :: d[i] != d[j] }

  predicate SameMembers(d: seq<Trade>, e: seq<Trade>) {
    (forall t | t in d :: t in e) && (forall t | t in e :: t in d)
  }

  lemma WithoutOne(e: seq<Trade>, j: nat)
    requires j < |e| && NoRepeats(e)
    ensures var rest := e[..j] + e[j + 1..];
            NoRepeats(rest) && forall x :: x in rest <==> x in e && x != e[j]
  {
    var rest := e[..j] + e[j + 1..];
    assert forall i | 0 <= i < |rest| :: rest[i] == if i < j then e[i] else e[i + 1];
    forall x ensures x in rest <==> x in e && x != e[j] {
      if x in e && x != e[j] {
        var i :| 0 <= i < |e| && e[i] == x;
        assert rest[if i < j then i else i - 1] == x;
      }
    }
  }

  /** Dropping one trade from both keeps two repetition-free listings the same. */
  lemma SameMembersWithout(d: seq<Trade>, e: seq<Trade>) returns (j: nat)
    requires NoRepeats(d) && NoRepeats(e) && SameMembers(d, e) && d != []
    ensures j < |e| && e[j] == d[|d| - 1]
    ensures var init, rest := d[..|d| - 1], e[..j] + e[j + 1..];
            NoRepeats(init) && NoRepeats(rest) && SameMembers(init, rest)
  {
    var n := |d| - 1;
    assert d[n] in e;
    j :| 0 <= j < |e| && e[j] == d[n];
    assert d[..n] + d[n + 1..] == d[..n];
    WithoutOne(d, n);
    WithoutOne(e, j);
  }

  lemma {:induction false} VolumeOfSameTrades(d: seq<Trade>, e: seq<Trade>, b: int, r: Resolution)
    requires NoRepeats(d) && NoRepeats(e) && SameMembers(d, e)
    requires forall i | 0 <= i < |d| :: Usable(d[i], r)
    requires forall i | 0 <= i < |e| :: Usable(e[i], r)
    ensures Volume(d, b, r) == Volume(e, b, r)
  {
    hide BarTimeFor, SameMembers, NoRepeats;
    if d == [] {
      OnlyEmpty(d, e);
    } else {
      var j := SameMembersWithout(d, e);
      VolumeWithout(e, j, b, r);
      VolumeOfSameTrades(d[..|d| - 1], e[..j] + e[j + 1..], b, r);
    }
  }

  lemma OnlyEmpty(d: seq<Trade>, e: seq<Trade>)
    requires SameMembers(d, e)
    ensures d == [] <==> e == []
  {
    if e != [] { assert e[0] in d; }
    if d != [] { assert d[0] in e; }
  }

  /** Time, high, low and volume depend only on which trades there were: not on the order
      they arrived in, nor on how often they were republished. */
  lemma CandleIgnoresOrderAndRepeats(a: seq<Trade>, b: seq<Trade>, r: Resolution)
    requires Windowed(a, r) && Windowed(b, r) && Consistent(a, r) && Consistent(b, r)
    requires UsableOf(a, r) == UsableOf(b, r)
    ensures var x, y := RunTape(State(None, []), a, r).bar, RunTape(State(None, []), b, r).bar;
            && x.None? == y.None?
            && (x.Some? ==> x.value.time == y.value.time && x.value.high == y.value.high
                            && x.value.low == y.value.low && x.value.volume == y.value.volume)
  {
    CandleIsTheAggregate(a, r);
    CandleIsTheAggregate(b, r);
    DistinctKeepsAll(a, r);
    DistinctKeepsAll(b, r);
    SameAggregates(RunTape(State(None, []), a, r).bar, Distinct(a, r), RunTape(State(None, []), b, r).bar, Distinct(b, r), r);
  }

  lemma SameAggregates(x: Option<Bar>, d: seq<Trade>, y: Option<Bar>, e: seq<Trade>, r: Resolution)
    requires forall i | 0 <= i < |d| :: Usable(d[i], r)
    requires forall i | 0 <= i < |e| :: Usable(e[i], r)
    requires NoRepeats(d) && NoRepeats(e) && SameMembers(d, e)
    requires (x.None? <==> d == []) && (y.None? <==> e == [])
    requires (x.Some? ==> Aggregates(x.value, d, r)) && (y.Some? ==> Aggregates(y.value, e, r))
    ensures x.None? == y.None?
    ensures x.Some? ==> x.value.time == y.value.time && x.value.high == y.value.high
                        && x.value.low == y.value.low && x.value.volume == y.value.volume
  {
    hide Aggregates, BarTimeFor, Volume;
    OnlyEmpty(d, e);
    if d != [] {
      AggregateAtMost(x.value, d, y.value, e, r);
      AggregateAtMost(y.value, e, x.value, d, r);
      VolumeOfSameTrades(d, e, x.value.time, r);
      VolumeOfAggregate(x.value, d, r);
      VolumeOfAggregate(y.value, e, r);
    }
  }

  lemma VolumeOfAggregate(x: Bar, d: seq<Trade>, r: Resolution)
    requires forall i | 0 <= i < |d| :: Usable(d[i], r)
    requires Aggregates(x, d, r)
    ensures x.volume == Volume(d, x.time, r)
  {}

  lemma AggregateAtMost(x: Bar, d: seq<Trade>, y: Bar, e: seq<Trade>, r: Resolution)
    requires forall i | 0 <= i < |d| :: Usable(d[i], r)
    requires forall i | 0 <= i < |e| :: Usable(e[i], r)
    requires Aggregates(x, d, r) && Aggregates(y, e, r)
    requires SameMembers(d, e)
    ensures x.time <= y.time && (x.time == y.time ==> x.high <= y.high && y.low <= x.low)
  {
    var i :| 0 <= i < |d| && Bucket(d[i], r) == x.time && d[i].price.value == x.high;
    var j :| 0 <= j < |d| && Bucket(d[j], r) == x.time && d[j].price.value == x.low;
    assert d[i] in e && d[j] in e;
  }

  // ---------------------------------------------------------------- bars never go backwards

  datatype Event = Seeded(bar: Bar) | Traded(trade: Trade)

  function Next(s: State, e: Event, r: Resolution): (State, Option<Bar>) {
    match e
    case Seeded(bar) => (Seed(s, bar), None)
    case Traded(t) => Accept(s, t, r)
  }

  /** The times of the bars handed out. */
  function Handed(s: State, es: seq<Event>, r: Resolution): seq<int>
    decreases |es|
  {
    if es == [] then []
    else
      var (s', out) := Next(s, es[0], r);
      (if out.Some? then [out.value.time] else []) + Handed(s', es[1..], r)
  }

  lemma NextNeverBackwards(s: State, e: Event, r: Resolution)
    ensures var (s', out) := Next(s, e, r);
            && (s.bar.Some? ==> s'.bar.Some? && s.bar.value.time <= s'.bar.value.time)
            && (out.Some? ==> out == s'.bar)
  {
    if e.Traded? && Usable(e.trade, r) && s.bar.Some? && e.trade.key !in s.seen {
      var t, open := e.trade.time.value, s.bar.value.time;
      BarTimeSettles(t, r);
      if BarTimeFor(t, r) <= open {
        BarTimesAscend(BarTimeFor(t, r), open, r);
      }
    }
  }

  predicate Rising(h: seq<int>) { forall i, j | 0 <= i < j < |h| :: h[i] <= h[j] }

  predicate NotBefore(s: State, h: seq<int>) { forall i | 0 <= i < |h| :: s.bar.Some? ==> s.bar.value.time <= h[i] }

  /** Over any interleaving of history pages and trades, seeded or not, the bars handed out
      have non-decreasing times. */
  lemma {:induction false} BarsNeverGoBackwards(s: State, es: seq<Event>, r: Resolution)
    ensures NotBefore(s, Handed(s, es, r)) && Rising(Handed(s, es, r))
    decreases |es|
  {
    hide Next;
    if es != [] {
      var (s', out) := Next(s, es[0], r);
      NextNeverBackwards(s, es[0], r);
      BarsNeverGoBackwards(s', es[1..], r);
      OneMoreHanded(s, s', out, Handed(s', es[1..], r));
    }
  }

  lemma OneMoreHanded(s: State, s': State, out: Option<Bar>, rest: seq<int>)
    requires s.bar.Some? ==> s'.bar.Some? && s.bar.value.time <= s'.bar.value.time
    requires out.Some? ==> out == s'.bar
    requires NotBefore(s', rest) && Rising(rest)
    requires s'.bar.None? ==> s.bar.None?
    ensures var h := (if out.Some? then [out.value.time] else []) + rest; NotBefore(s, h) && Rising(h)
  {
    var h := (if out.Some? then [out.value.time] else []) + rest;
    if out.Some? {
      assert forall i | 0 < i < |h| :: h[i] == rest[i - 1];
    } else {
      assert h == rest;
    }
  }

  // ---------------------------------------------------------------- one message of the feed

  predicate NotLater(a: Trade, b: Trade) { a.time.None? || (b.time.Some? && a.time.value <= b.time.value) }

  predicate Ascending(ts: seq<Trade>) { forall i, j | 0 <= i < j < |ts| :: NotLater(ts[i], ts[j]) }

  /** Stable insertion by time, trades without one first. */
  function InsertByTime(ts: seq<Trade>, t: Trade): (s: seq<Trade>)
    requires Ascending(ts)
    ensures Ascending(s) && multiset(s) == multiset(ts) + multiset{t}
  {
    if ts == [] || NotLater(ts[|ts| - 1], t) then ts + [t]
    else
      var s := InsertByTime(ts[..|ts| - 1], t);
      assert ts == ts[..|ts| - 1] + [ts[|ts| - 1]];
      InsertedStays(ts, t, s);
      s + [ts[|ts| - 1]]
  }

  lemma InsertedStays(ts: seq<Trade>, t: Trade, s: seq<Trade>)
    requires ts != [] && Ascending(ts) && !NotLater(ts[|ts| - 1], t)
    requires Ascending(s) && multiset(s) == multiset(ts[..|ts| - 1]) + multiset{t}
    ensures Ascending(s + [ts[|ts| - 1]])
  {
    forall i | 0 <= i < |s| ensures NotLater(s[i], ts[|ts| - 1]) {
      assert s[i] in multiset(s);
      if s[i] != t {
        assert s[i] in ts[..|ts| - 1];
      }
    }
  }

  function ByTime(ts: seq<Trade>): (s: seq<Trade>)
    ensures Ascending(s) && multiset(s) == multiset(ts)
  {
    if ts == [] then []
    else
      assert ts == ts[..|ts| - 1] + [ts[|ts| - 1]];
      InsertByTime(ByTime(ts[..|ts| - 1]), ts[|ts| - 1])
  }

  /** The trades of one instant, in the order given. */
  function At(ts: seq<Trade>, time: int): seq<Trade> {
    if ts == [] then []
    else At(ts[..|ts| - 1], time) + if ts[|ts| - 1].time == Some(time) then [ts[|ts| - 1]] else []
  }

  lemma AtOneMore(ts: seq<Trade>, t: Trade, time: int)
    ensures At(ts + [t], time) == At(ts, time) + if t.time == Some(time) then [t] else []
  {
    assert (ts + [t])[..|ts|] == ts;
  }

  lemma InsertedBelow(ts: seq<Trade>, t: Trade)
    requires ts != [] && Ascending(ts) && !NotLater(ts[|ts| - 1], t)
    ensures Ascending(ts[..|ts| - 1])
    ensures InsertByTime(ts, t) == InsertByTime(ts[..|ts| - 1], t) + [ts[|ts| - 1]]
  {}

  lemma InsertedLast(ts: seq<Trade>, t: Trade)
    requires Ascending(ts) && (ts == [] || NotLater(ts[|ts| - 1], t))
    ensures InsertByTime(ts, t) == ts + [t]
  {}

  lemma LaterIsAnother(a: Trade, t: Trade, time: int)
    requires !NotLater(a, t)
    ensures !(a.time == Some(time) && t.time == Some(time))
  {}

  lemma {:induction false} InsertedIsLastOfItsTime(ts: seq<Trade>, t: Trade, time: int)
    requires Ascending(ts)
    ensures At(InsertByTime(ts, t), time) == At(ts, time) + if t.time == Some(time) then [t] else []
  {
    hide At, InsertByTime, Ascending, NotLater;
    if ts == [] || NotLater(ts[|ts| - 1], t) {
      InsertedLast(ts, t);
      AtOneMore(ts, t, time);
    } else {
      var init, last := ts[..|ts| - 1], ts[|ts| - 1];
      InsertedBelow(ts, t);
      LaterIsAnother(last, t, time);
      InsertedIsLastOfItsTime(init, t, time);
      assert ts == init + [last];
      AtOneMore(init, last, time);
      AtOneMore(InsertByTime(init, t), last, time);
    }
  }

  /** The trades of a message are taken oldest first, and those of one instant in the order they
      came. */
  lemma {:induction false} OldestFirst(ts: seq<Trade>, time: int)
    ensures var s := ByTime(ts);
            && multiset(s) == multiset(ts)
            && (forall i, j | 0 <= i < j < |s| && s[i].time.Some? && s[j].time.Some? :: s[i].time.value <= s[j].time.value)
            && At(s, time) == At(ts, time)
  {
    if ts != [] {
      var init, last := ts[..|ts| - 1], ts[|ts| - 1];
      OldestFirst(init, time);
      InsertedIsLastOfItsTime(ByTime(init), last, time);
    }
    TimesAscend(ByTime(ts));
  }

  lemma TimesAscend(s: seq<Trade>)
    requires Ascending(s)
    ensures forall i, j | 0 <= i < j < |s| && s[i].time.Some? && s[j].time.Some? :: s[i].time.value <= s[j].time.value
  {
    assert forall i, j | 0 <= i < j < |s| :: NotLater(s[i], s[j]);
  }

  lemma OneMoreTrade(s: State, ts: seq<Trade>, i: nat, r: Resolution)
    requires i < |ts|
    ensures RunTape(s, ts[..i + 1], r) == Accept(RunTape(s, ts[..i], r), ts[i], r).0
  {
    assert ts[..i + 1][..i] == ts[..i];
  }

  /** Does some trade of the batch get a bar handed out? */
  predicate Moves(s: State, ts: seq<Trade>, r: Resolution) {
    exists i :: 0 <= i < |ts| && HandsOut(s, ts, i, r)
  }

  predicate HandsOut(s: State, ts: seq<Trade>, i: nat, r: Resolution)
    requires i < |ts|
  {
    Accept(RunTape(s, ts[..i], r), ts[i], r).1.Some?
  }

  /** A message: a late seed if there is no bar yet, the trades oldest first, and one tick with the
      bar they leave open if any of them changed it. */
  function Receive(s: State, trades: seq<Trade>, history: Option<Bar>, r: Resolution): (State, Option<Bar>) {
    if trades == [] then (s, None)
    else
      var seeded := if s.bar.None? && history.Some? then Seed(s, history.value) else s;
      var after := RunTape(seeded, ByTime(trades), r);
      (after, if Moves(seeded, ByTime(trades), r) then after.bar else None)
  }

  method OnRecentTrade(builder: LiveBarBuilder, trades: seq<Trade>, history: Option<Bar>) returns (tick: Option<Bar>)
    requires builder.Valid()
    modifies builder
    ensures builder.Valid()
    ensures (builder.View(), tick) == Receive(old(builder.View()), trades, history, builder.resolution)
    ensures trades == [] ==> tick.None? && builder.View() == old(builder.View())
    ensures tick.None? && trades != [] ==> builder.bar == if old(builder.bar).None? then history else old(builder.bar)
    ensures trades != [] ==>
              && builder.View() == RunTape(if old(builder.bar).None? then State(history, old(builder.seenOrder))
                                           else old(builder.View()), ByTime(trades), builder.resolution)
              && tick == if Moves(if old(builder.bar).None? then State(history, old(builder.seenOrder))
                                  else old(builder.View()), ByTime(trades), builder.resolution) then builder.bar else None
  {
    tick := None;
    if trades == [] {
      return;
    }
    if builder.bar.None? && history.Some? {
      builder.SeedWith(history.value);
    }
    tick := AcceptAll(builder, ByTime(trades));
  }

  /** The trades one by one; only the last bar handed out is kept. */
  method AcceptAll(builder: LiveBarBuilder, ordered: seq<Trade>) returns (latest: Option<Bar>)
    requires builder.Valid()
    modifies builder
    ensures builder.Valid() && builder.View() == RunTape(old(builder.View()), ordered, builder.resolution)
    ensures latest == if Moves(old(builder.View()), ordered, builder.resolution) then builder.bar else None
    ensures latest.None? ==> builder.bar == old(builder.bar)
    ensures latest.Some? ==> exists i :: 0 <= i < |ordered| && HandsOut(old(builder.View()), ordered, i, builder.resolution)
  {
    hide Accept, RunTape, HandsOut;
    latest := None;
    ghost var start := builder.View();
    NoTrades(start, ordered, builder.resolution);
    for i := 0 to |ordered|
      invariant builder.Valid()
      invariant builder.View() == RunTape(start, ordered[..i], builder.resolution)
      invariant latest.Some? ==> latest == builder.bar
      invariant latest.None? ==> builder.bar == start.bar
      invariant latest.Some? <==> exists j :: 0 <= j < i && HandsOut(start, ordered, j, builder.resolution)
    {
      OneMoreTrade(start, ordered, i, builder.resolution);
      AcceptNeverBackwards(builder.View(), ordered[i], builder.resolution);
      HandedOutNow(start, ordered, i, builder.resolution);
      var bar := builder.AcceptTrade(ordered[i]);
      if bar.Some? {
        latest := bar;
      }
    }
    assert ordered[..|ordered|] == ordered;
  }

  lemma HandedOutNow(s: State, ts: seq<Trade>, i: nat, r: Resolution)
    requires i < |ts|
    ensures HandsOut(s, ts, i, r) <==> Accept(RunTape(s, ts[..i], r), ts[i], r).1.Some?
  {}

  /** A page of history is offered as a seed, and makes no tick; a message with trades and no bar
      open is seeded first. */
  lemma WhatIsFed(s: State, page: Bar, trades: seq<Trade>, history: Option<Bar>, r: Resolution)
    ensures Fed(s, Page(page), r) ==
            (if s.bar.None? || s.bar.value.time < page.time then State(Some(page), s.seen) else s, None)
    ensures Next(s, Seeded(page), r) == Fed(s, Page(page), r)
    ensures trades != [] ==> Fed(s, Message(trades, history), r).0 ==
                             RunTape(if s.bar.None? then State(history, s.seen) else s, ByTime(trades), r)
    ensures Fed(s, Message([], history), r) == (s, None)
  {
    hide RunTape, ByTime;
  }

  /** What reaches a subscription: a page of history, or a message of the feed. */
  datatype Feed = Page(bar: Bar) | Message(trades: seq<Trade>, history: Option<Bar>)

  function Fed(s: State, f: Feed, r: Resolution): (State, Option<Bar>) {
    match f
    case Page(bar) => (Seed(s, bar), None)
    case Message(trades, history) => Receive(s, trades, history, r)
  }

  /** The times of the ticks the chart is given. */
  function Ticks(s: State, fs: seq<Feed>, r: Resolution): seq<int>
    decreases |fs|
  {
    if fs == [] then []
    else
      var (s', tick) := Fed(s, fs[0], r);
      (if tick.Some? then [tick.value.time] else []) + Ticks(s', fs[1..], r)
  }

  lemma {:induction false} TapeNeverBackwards(s: State, ts: seq<Trade>, r: Resolution)
    ensures NotOlder(s.bar, RunTape(s, ts, r).bar)
    ensures (exists i :: 0 <= i < |ts| && HandsOut(s, ts, i, r)) ==> RunTape(s, ts, r).bar.Some?
  {
    hide Accept, RunTape;
    NoTrades(s, ts, r);
    for i := 0 to |ts|
      invariant NotOlder(s.bar, RunTape(s, ts[..i], r).bar)
      invariant (exists j :: 0 <= j < i && HandsOut(s, ts, j, r)) ==> RunTape(s, ts[..i], r).bar.Some?
    {
      OneMoreTrade(s, ts, i, r);
      AcceptNeverBackwards(RunTape(s, ts[..i], r), ts[i], r);
    }
    assert ts[..|ts|] == ts;
  }

  lemma FedNeverBackwards(s: State, f: Feed, r: Resolution)
    ensures var (s', tick) := Fed(s, f, r); NotOlder(s.bar, s'.bar) && (tick.Some? ==> tick == s'.bar)
  {
    hide RunTape, ByTime;
    if f.Message? {
      var seeded := if s.bar.None? && f.history.Some? then Seed(s, f.history.value) else s;
      TapeNeverBackwards(seeded, ByTime(f.trades), r);
    }
  }

  /** One tick a message at most, and over any interleaving of history pages and messages, in any
      order within a message, the ticks never go back in time. */
  lemma {:induction false} TicksNeverGoBackwards(s: State, fs: seq<Feed>, r: Resolution)
    ensures NotBefore(s, Ticks(s, fs, r)) && Rising(Ticks(s, fs, r)) && |Ticks(s, fs, r)| <= |fs|
    decreases |fs|
  {
    hide Fed;
    if fs != [] {
      var (s', tick) := Fed(s, fs[0], r);
      FedNeverBackwards(s, fs[0], r);
      TicksNeverGoBackwards(s', fs[1..], r);
      OneMoreHanded(s, s', tick, Ticks(s', fs[1..], r));
    }
  }

  predicate NotOlder(was: Option<Bar>, now: Option<Bar>) {
    was.Some? ==> now.Some? && was.value.time <= now.value.time
  }

  lemma NoTrades(s: State, ts: seq<Trade>, r: Resolution)
    ensures RunTape(s, ts[..0], r) == s
  {}

  lemma AcceptNeverBackwards(s: State, t: Trade, r: Resolution)
    ensures var (s', out) := Accept(s, t, r);
            && NotOlder(s.bar, s'.bar)
            && (out.Some? ==> out == s'.bar)
            && (out.None? ==> s'.bar == s.bar)
  {
    NextNeverBackwards(s, Traded(t), r);
  }
}

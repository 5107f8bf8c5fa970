/** The two open-order hashes of every pair, which hold the synthetic ladder and the users'
    orders side by side, and what one refresh of a pair's ladder leaves in them. */
module PaperRows {
  import opened Options

  type Id = string

  type Pair = string

  datatype Side = Buy | Sell

  /** One field of one open-order hash. */
  datatype Slot = Slot(side: Side, pair: Pair, field: Id)

  /** What is stored there: text that does not parse, or an order. */
  datatype Row = Unreadable | Parsed(id: Id, paper: bool, price: real, quantity: real)

  type Rows = map<Slot, Row>

  /** A freshly built synthetic order. */
  datatype Order = Order(id: Id, price: real, quantity: real)

  function RowOf(o: Order): Row { Parsed(o.id, true, o.price, o.quantity) }

  predicate IsPaper(r: Row) { r.Parsed? && r.paper }

  function PaperSlots(rows: Rows, p: Pair): set<Slot> {
    set s | s in rows && s.pair == p && IsPaper(rows[s])
  }

  /** The synthetic orders of one hash that a sweep keeping `keep` deletes. */
  function StaleSlots(rows: Rows, side: Side, p: Pair, keep: set<Id>): set<Slot> {
    set s | s in rows && s.side == side && s.pair == p && IsPaper(rows[s]) && rows[s].id !in keep
  }

  function Ids(orders: seq<Order>): set<Id> { set i | 0 <= i < |orders| :: orders[i].id }

  function SlotOf(side: Side, p: Pair, o: Order): Slot { Slot(side, p, o.id) }

  /** One side written order by order: a later order under the same id replaces an earlier. */
  function Written(rows: Rows, side: Side, p: Pair, orders: seq<Order>): Rows {
    if orders == [] then rows
    else
      var n := |orders| - 1;
      Written(rows, side, p, orders[..n])[SlotOf(side, p, orders[n]) := RowOf(orders[n])]
  }

  /** Both fields of every id, deleted one by one. */
  function Forgotten(rows: Rows, p: Pair, ids: seq<Id>): Rows {
    if ids == [] then rows
    else
      var n := |ids| - 1;
      Forgotten(rows, p, ids[..n]) - {Slot(Buy, p, ids[n])} - {Slot(Sell, p, ids[n])}
  }

  /** What is left when the last ladder and every other leftover synthetic order are gone. */
  function Cleared(rows: Rows, p: Pair, previous: seq<Id>, keep: set<Id>): Rows {
    var kept := Forgotten(rows, p, previous);
    var bought := kept - StaleSlots(kept, Buy, p, keep);
    bought - StaleSlots(bought, Sell, p, keep)
  }

  /** The hashes after a whole refresh. */
  function Refreshed(rows: Rows, p: Pair, previous: seq<Id>, buys: seq<Order>, sells: seq<Order>): Rows {
    var bare := Cleared(rows, p, previous, Ids(buys) + Ids(sells));
    Written(Written(bare, Buy, p, buys), Sell, p, sells)
  }

  // ---------------------------------------------------------------- slot by slot

  predicate Stored(rows: Rows, s: Slot, r: Row) { s in rows && rows[s] == r }

  /** A readable synthetic order with this order's id, price and quantity rests there. */
  predicate Shows(rows: Rows, s: Slot, o: Order) {
    && s in rows && rows[s].Parsed? && rows[s].paper
    && rows[s].id == o.id && rows[s].price == o.price && rows[s].quantity == o.quantity
  }

  predicate IsLast(orders: seq<Order>, i: nat, id: Id)
    requires i < |orders|
  {
    orders[i].id == id && forall k | i < k < |orders| :: orders[k].id != id
  }

  lemma StillLast(orders: seq<Order>, i: nat, id: Id)
    requires i < |orders| - 1 && IsLast(orders[..|orders| - 1], i, id) && orders[|orders| - 1].id != id
    ensures IsLast(orders, i, id)
  {
    forall k | i < k < |orders| ensures orders[k].id != id {
      assert k < |orders| - 1 ==> orders[k] == orders[..|orders| - 1][k];
    }
  }

  /** The row of the last order under this field's id. */
  predicate ShowsLast(rows: Rows, s: Slot, orders: seq<Order>) {
    exists i :: 0 <= i < |orders| && IsLast(orders, i, s.field) && Shows(rows, s, orders[i])
  }

  lemma WriteShows(rows: Rows, s: Slot, o: Order)
    ensures Shows(rows[s := RowOf(o)], s, o)
  {}

  lemma {:induction false} WrittenAt(rows: Rows, side: Side, p: Pair, orders: seq<Order>, s: Slot)
    ensures var w := Written(rows, side, p, orders);
            if s.side == side && s.pair == p && s.field in Ids(orders) then s in w && ShowsLast(w, s, orders)
            else (s in w <==> s in rows) && (s in w ==> w[s] == rows[s])
  {
    hide IsLast, RowOf;
    if orders != [] {
      var n := |orders| - 1;
      var init := Written(rows, side, p, orders[..n]);
      WrittenAt(rows, side, p, orders[..n], s);
      assert s.field in Ids(orders) <==> s.field in Ids(orders[..n]) || s.field == orders[n].id;
      if s == SlotOf(side, p, orders[n]) {
        assert IsLast(orders, n, s.field) by { LastIsLast(orders); }
        WriteShows(init, s, orders[n]);
      } else if s.side == side && s.pair == p && s.field in Ids(orders) {
        var i :| 0 <= i < n && IsLast(orders[..n], i, s.field) && Shows(init, s, orders[..n][i]);
        StillLast(orders, i, s.field);
        assert Shows(Written(rows, side, p, orders), s, orders[i]);
      }
    }
  }

  lemma LastIsLast(orders: seq<Order>)
    requires orders != []
    ensures IsLast(orders, |orders| - 1, orders[|orders| - 1].id)
  {}

  lemma {:induction false} ForgottenAt(rows: Rows, p: Pair, ids: seq<Id>, s: Slot)
    ensures var f := Forgotten(rows, p, ids);
            if s.pair == p && s.field in ids then s !in f
            else (s in f <==> s in rows) && (s in f ==> f[s] == rows[s])
  {
    if ids != [] {
      var n := |ids| - 1;
      ForgottenAt(rows, p, ids[..n], s);
      assert s.field in ids <==> s.field in ids[..n] || s.field == ids[n];
      assert s in {Slot(Buy, p, ids[n]), Slot(Sell, p, ids[n])} <==> s.pair == p && s.field == ids[n] by {
        assert s.side.Buy? || s.side.Sell?;
      }
    }
  }

  /** Does clearing keep whatever rests at this slot? */
  predicate Survives(rows: Rows, p: Pair, previous: seq<Id>, keep: set<Id>, s: Slot) {
    && s in rows
    && (s.pair == p ==> s.field !in previous && (IsPaper(rows[s]) ==> rows[s].id in keep))
  }

  lemma ClearedAt(rows: Rows, p: Pair, previous: seq<Id>, keep: set<Id>, s: Slot)
    ensures var c := Cleared(rows, p, previous, keep);
            && (s in c <==> Survives(rows, p, previous, keep, s))
            && (s in c ==> c[s] == rows[s])
  {
    ForgottenAt(rows, p, previous, s);
  }

  /** Is this slot written by the refresh? */
  predicate IsNew(p: Pair, buys: seq<Order>, sells: seq<Order>, s: Slot) {
    s.pair == p && s.field in (if s.side == Buy then Ids(buys) else Ids(sells))
  }

  lemma RefreshedAt(rows: Rows, p: Pair, previous: seq<Id>, buys: seq<Order>, sells: seq<Order>, s: Slot)
    ensures var r := Refreshed(rows, p, previous, buys, sells);
            var own := if s.side == Buy then buys else sells;
            if IsNew(p, buys, sells, s)
            then s in r && ShowsLast(r, s, own)
            else (s in r <==> Survives(rows, p, previous, Ids(buys) + Ids(sells), s)) && (s in r ==> r[s] == rows[s])
  {
    hide Cleared, Written, Survives;
    var bare := Cleared(rows, p, previous, Ids(buys) + Ids(sells));
    ClearedAt(rows, p, previous, Ids(buys) + Ids(sells), s);
    WrittenAt(bare, Buy, p, buys, s);
    WrittenAt(Written(bare, Buy, p, buys), Sell, p, sells, s);
  }

  // ---------------------------------------------------------------- exact replacement

  /** Every order of one side rests in its own slot as built. */
  predicate Rests(rows: Rows, side: Side, p: Pair, orders: seq<Order>) {
    forall i | 0 <= i < |orders| :: Shows(rows, SlotOf(side, p, orders[i]), orders[i])
  }

  /** The synthetic orders of the pair are the given ones, each on its side, and no others. */
  predicate LadderIs(rows: Rows, p: Pair, buys: seq<Order>, sells: seq<Order>) {
    && Rests(rows, Buy, p, buys)
    && Rests(rows, Sell, p, sells)
    && forall s | s in PaperSlots(rows, p) :: IsNew(p, buys, sells, s)
  }

  /** Whatever is not a synthetic order of the pair is where it was, and nothing else appeared. */
  predicate UsersUntouched(before: Rows, after: Rows, p: Pair) {
    && (forall s | s in before && IsOthers(s, before[s], p) :: Stored(after, s, before[s]))
    && (forall s | s in after && IsOthers(s, after[s], p) :: Stored(before, s, after[s]))
  }

  /** Another pair's row, one that does not parse, or an order without the synthetic mark. */
  predicate IsOthers(s: Slot, r: Row, p: Pair) { s.pair != p || r == Unreadable || !r.paper }

  /** Orders of one side that share an id are the same order. */
  predicate Consistent(orders: seq<Order>) {
    forall i, j | 0 <= i < |orders| && 0 <= j < |orders| && orders[i].id == orders[j].id :: orders[i] == orders[j]
  }

  /** No leftover synthetic order outlives the clearing under an id that is being kept, other
      than where the new order is about to overwrite it. */
  predicate NoStowaway(rows: Rows, p: Pair, previous: seq<Id>, buys: seq<Order>, sells: seq<Order>) {
    forall s | s in PaperSlots(rows, p) && s.field !in previous && rows[s].id in Ids(buys) + Ids(sells) ::
      IsNew(p, buys, sells, s)
  }

  /** No user order sits in a field the refresh deletes by name or writes to. */
  predicate NoCollision(rows: Rows, p: Pair, previous: seq<Id>, buys: seq<Order>, sells: seq<Order>) {
    forall s | s in rows && s.pair == p && !IsPaper(rows[s]) :: s.field !in previous && !IsNew(p, buys, sells, s)
  }

  lemma RestsIff(rows: Rows, p: Pair, previous: seq<Id>, buys: seq<Order>, sells: seq<Order>, side: Side)
    ensures var orders := if side == Buy then buys else sells;
            Rests(Refreshed(rows, p, previous, buys, sells), side, p, orders) <==> Consistent(orders)
  {
    hide Refreshed, Survives;
    var r := Refreshed(rows, p, previous, buys, sells);
    var orders := if side == Buy then buys else sells;
    forall i | 0 <= i < |orders| && Consistent(orders) ensures Shows(r, SlotOf(side, p, orders[i]), orders[i]) {
      RefreshedAt(rows, p, previous, buys, sells, SlotOf(side, p, orders[i]));
    }
    if Rests(r, side, p, orders) {
      forall i, j | 0 <= i < |orders| && 0 <= j < |orders| && orders[i].id == orders[j].id
        ensures orders[i] == orders[j]
      {
        assert Shows(r, SlotOf(side, p, orders[i]), orders[i]);
        assert Shows(r, SlotOf(side, p, orders[j]), orders[j]);
      }
    }
  }

  lemma OthersIff(rows: Rows, p: Pair, previous: seq<Id>, buys: seq<Order>, sells: seq<Order>)
    ensures var r := Refreshed(rows, p, previous, buys, sells);
            (forall s | s in PaperSlots(r, p) :: IsNew(p, buys, sells, s))
            <==> NoStowaway(rows, p, previous, buys, sells)
  {
    hide Refreshed, IsNew;
    var r := Refreshed(rows, p, previous, buys, sells);
    forall s: Slot
      ensures !IsNew(p, buys, sells, s) ==>
                (s in PaperSlots(r, p) <==>
                 s in PaperSlots(rows, p) && s.field !in previous && rows[s].id in Ids(buys) + Ids(sells))
    {
      RefreshedAt(rows, p, previous, buys, sells, s);
    }
  }

  lemma UsersIff(rows: Rows, p: Pair, previous: seq<Id>, buys: seq<Order>, sells: seq<Order>)
    ensures UsersUntouched(rows, Refreshed(rows, p, previous, buys, sells), p)
       <==> NoCollision(rows, p, previous, buys, sells)
  {
    hide Refreshed;
    var r := Refreshed(rows, p, previous, buys, sells);
    forall s: Slot
      ensures s in rows && s !in PaperSlots(rows, p) ==>
                (Stored(r, s, rows[s]) <==> s.pair != p || (s.field !in previous && !IsNew(p, buys, sells, s)))
      ensures s in r && s !in PaperSlots(r, p) ==> Stored(rows, s, r[s])
    {
      RefreshedAt(rows, p, previous, buys, sells, s);
    }
  }

  /** From any leftover state, a refresh is an exact replacement (the ladder is the new orders,
      each on its side, and nobody else's order moved) precisely when orders that share an id
      are equal, no leftover hides under a new id in a slot that is not overwritten, and no user
      order sits in a field the refresh deletes or writes. */
  lemma ReplacementIsExactIff(rows: Rows, p: Pair, previous: seq<Id>, buys: seq<Order>, sells: seq<Order>)
    ensures var r := Refreshed(rows, p, previous, buys, sells);
            LadderIs(r, p, buys, sells) && UsersUntouched(rows, r, p) <==>
            && Consistent(buys) && Consistent(sells)
            && NoStowaway(rows, p, previous, buys, sells)
            && NoCollision(rows, p, previous, buys, sells)
  {
    hide Refreshed, Rests, Consistent, NoStowaway, NoCollision, UsersUntouched, IsNew;
    RestsIff(rows, p, previous, buys, sells, Buy);
    RestsIff(rows, p, previous, buys, sells, Sell);
    OthersIff(rows, p, previous, buys, sells);
    UsersIff(rows, p, previous, buys, sells);
  }

  /** With new ids that no stored order carries, and last cycle's ids carried by synthetic orders
      only, the replacement is exact from any leftover state. */
  lemma FreshIdsReplaceExactly(rows: Rows, p: Pair, previous: seq<Id>, buys: seq<Order>, sells: seq<Order>)
    requires forall s | s in rows && s.pair == p :: s.field !in Ids(buys) + Ids(sells)
    requires forall s | s in PaperSlots(rows, p) :: rows[s].id !in Ids(buys) + Ids(sells)
    requires forall s | s in rows && s.pair == p && s.field in previous :: IsPaper(rows[s])
    requires forall i, j | 0 <= i < j < |buys| :: buys[i].id != buys[j].id
    requires forall i, j | 0 <= i < j < |sells| :: sells[i].id != sells[j].id
    ensures var r := Refreshed(rows, p, previous, buys, sells);
            LadderIs(r, p, buys, sells) && UsersUntouched(rows, r, p)
  {
    hide Refreshed, LadderIs, UsersUntouched;
    ReplacementIsExactIff(rows, p, previous, buys, sells);
  }
}

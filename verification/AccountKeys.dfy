/** The Redis keys of one account that the reset and the value-moving requests share,
    and the Lua scripts that touch them, one atomic step each. */
module AccountKeys {
  import opened Options

  type Token = nat
  type Coin = nat
  type OrderId = nat
  type BookId = nat

  /** An order as it lies in an open-order hash: what it holds is what a cancel pays back. */
  datatype Order = Order(coin: Coin, held: real)

  /** A row of an open-order hash: the hash and the field. */
  datatype Slot = Slot(book: BookId, id: OrderId)

  datatype Freeze = Freeze(token: Token, expires: int)

  /** The account's keys: the margin freeze, the flight hash and its own expiry, the spot
      balances, and the account's rows in the open-order hashes. */
  datatype Keys = Keys(
    freeze: Option<Freeze>, flights: map<Token, int>, flightsExpire: int,
    balance: map<Coin, real>, rows: map<Slot, Order>)

  const MARGIN_FREEZE_TTL_MS: int := 15000
  const VALUE_FLIGHT_TTL_MS: int := 30000

  function BalanceOf(balance: map<Coin, real>, c: Coin): real { if c in balance then balance[c] else 0.0 }

  predicate Frozen(k: Keys, now: int) { k.freeze.Some? && now < k.freeze.value.expires }

  /** An expired hash reads as empty. */
  function LiveHash(k: Keys, now: int): map<Token, int> { if now < k.flightsExpire then k.flights else map[] }

  /** CLAIM_ONCE: take the freeze unless somebody holds it. */
  function ClaimOnce(k: Keys, now: int, token: Token, ttl: int): (Keys, bool) {
    if Frozen(k, now) then (k, false) else (k.(freeze := Some(Freeze(token, now + ttl))), true)
  }

  /** RELEASE_CLAIM: give the freeze back, but only one's own. */
  function ReleaseClaim(k: Keys, now: int, token: Token): (Keys, bool) {
    if Frozen(k, now) && k.freeze.value.token == token then (k.(freeze := None), true) else (k, false)
  }

  /** BEGIN_FLIGHT: register under a deadline, unless frozen; the whole hash lives on for `ttl`. */
  function BeginFlight(k: Keys, now: int, token: Token, deadline: int, ttl: int): (Keys, bool) {
    if Frozen(k, now) then (k, false)
    else (k.(flights := LiveHash(k, now)[token := deadline], flightsExpire := now + ttl), true)
  }

  /** The flights that have not passed their deadline at `at`, read from the hash at `now`. */
  function LiveFlights(k: Keys, now: int, at: int): set<Token> {
    set t | t in LiveHash(k, now) && LiveHash(k, now)[t] > at
  }

  /** A checked debit: refused under a freeze, refused unless positive and covered. */
  function Reserve(k: Keys, now: int, c: Coin, amount: real): (Keys, bool) {
    if Frozen(k, now) || amount <= 0.0 || BalanceOf(k.balance, c) < amount then (k, false)
    else (k.(balance := k.balance[c := BalanceOf(k.balance, c) - amount]), true)
  }

  /** An unchecked signed move. */
  function Apply(k: Keys, c: Coin, delta: real): Keys {
    k.(balance := k.balance[c := BalanceOf(k.balance, c) + delta])
  }

  /** HGETDEL: read and remove in one step. */
  function GetDel(k: Keys, s: Slot): (Keys, Option<Order>) {
    if s in k.rows then (k.(rows := k.rows - {s}), Some(k.rows[s])) else (k, None)
  }

  /** A freeze stands until its own token gives it back or its time is up; a wrong token, or one
      whose freeze has run out, changes nothing. */
  lemma OnlyTheHolderReleases(k: Keys, now: int, token: Token)
    ensures var (after, ok) := ReleaseClaim(k, now, token);
            && (ok <==> k.freeze.Some? && now < k.freeze.value.expires && k.freeze.value.token == token)
            && (ok ==> after.freeze == None && !Frozen(after, now))
            && (!ok ==> after == k)
            && after.balance == k.balance && after.rows == k.rows && after.flights == k.flights
  {}

  /** The live store. Every method is one script; the clock is the server's own. */
  class Store {
    var freeze: Option<Freeze>
    var flights: map<Token, int>
    var flightsExpire: int
    var balance: map<Coin, real>
    var rows: map<Slot, Order>

    function View(): Keys
      reads this
    {
      Keys(freeze, flights, flightsExpire, balance, rows)
    }

    /** Nobody else's live freeze is overwritten, and an expired one is no obstacle. */
    method TakeFreeze(now: int, token: Token, ttl: int) returns (ok: bool)
      modifies this`freeze
      ensures (View(), ok) == ClaimOnce(old(View()), now, token, ttl)
      ensures ok <==> old(freeze).None? || old(freeze).value.expires <= now
      ensures freeze == if ok then Some(Freeze(token, now + ttl)) else old(freeze)
    {
      if freeze.Some? && now < freeze.value.expires {
        return false;
      }
      freeze := Some(Freeze(token, now + ttl));
      ok := true;
    }

    /** The live freeze goes if it carries the token, and only then. */
    method DropFreeze(now: int, token: Token) returns (ok: bool)
      modifies this`freeze
      ensures (View(), ok) == ReleaseClaim(old(View()), now, token)
      ensures ok <==> old(freeze).Some? && now < old(freeze).value.expires && old(freeze).value.token == token
      ensures freeze == if ok then None else old(freeze)
    {
      ok := freeze.Some? && now < freeze.value.expires && freeze.value.token == token;
      if ok {
        freeze := None;
      }
    }

    /** Unless frozen, the flight is on record with its deadline, next to every other flight of a
        hash that has not expired, and the hash lives for `ttl` from now. */
    method RegisterFlight(now: int, token: Token, deadline: int, ttl: int) returns (ok: bool)
      modifies this`flights, this`flightsExpire
      ensures (View(), ok) == BeginFlight(old(View()), now, token, deadline, ttl)
      ensures ok <==> freeze.None? || freeze.value.expires <= now
      ensures ok ==> token in flights && flights[token] == deadline && flightsExpire == now + ttl
      ensures ok ==> forall t | t != token :: t in flights <==> t in old(flights) && now < old(flightsExpire)
      ensures ok ==> forall t | t != token && t in flights :: flights[t] == old(flights)[t]
      ensures !ok ==> flights == old(flights) && flightsExpire == old(flightsExpire)
    {
      if freeze.Some? && now < freeze.value.expires {
        return false;
      }
      if now >= flightsExpire {
        flights := map[];
      }
      flights, flightsExpire := flights[token := deadline], now + ttl;
      ok := true;
    }

    /** The registry as a reset reads it: a flight is live while the hash is there and its deadline is
        after the reading's own time. */
    method ReadFlights(now: int, at: int) returns (live: set<Token>)
      ensures live == LiveFlights(View(), now, at)
      ensures forall t :: t in live <==> now < flightsExpire && t in flights && at < flights[t]
    {
      live := {};
      if now < flightsExpire {
        live := set t | t in flights && flights[t] > at;
      }
    }

    /** Refused under a freeze, and unless the amount is positive and covered. */
    method Debit(now: int, c: Coin, amount: real) returns (ok: bool)
      modifies this`balance
      ensures (View(), ok) == Reserve(old(View()), now, c, amount)
      ensures ok <==> && (freeze.None? || freeze.value.expires <= now)
                      && amount > 0.0 && c in old(balance) && old(balance)[c] >= amount
      ensures balance == if ok then old(balance)[c := old(balance)[c] - amount] else old(balance)
    {
      if freeze.Some? && now < freeze.value.expires {
        return false;
      }
      var before := if c in balance then balance[c] else 0.0;
      ok := amount > 0.0 && before >= amount;
      if ok {
        balance := balance[c := before - amount];
      }
    }

    /** A balance that is not there counts as zero. */
    method Move(c: Coin, delta: real)
      modifies this`balance
      ensures View() == Apply(old(View()), c, delta)
      ensures c in balance && balance[c] == (if c in old(balance) then old(balance)[c] else 0.0) + delta
      ensures balance - {c} == old(balance) - {c}
    {
      var before := if c in balance then balance[c] else 0.0;
      balance := balance[c := before + delta];
    }

    /** Whoever takes the row out has it, and nobody after. */
    method TakeRow(s: Slot) returns (taken: Option<Order>)
      modifies this`rows
      ensures (View(), taken) == GetDel(old(View()), s)
      ensures taken == if s in old(rows) then Some(old(rows)[s]) else None
      ensures rows == old(rows) - {s}
    {
      taken := None;
      if s in rows {
        taken := Some(rows[s]);
        rows := rows - {s};
      }
    }
  }

  // ---------------------------------------------------------------- what is held

  /** The value of coin `c` in a collection of orders. */
  ghost function Held<K>(m: map<K, Order>, c: Coin): real
    decreases |m|
  {
    if m == map[] then 0.0
    else
      var k :| k in m;
      Amount(m[k], c) + Held(m - {k}, c)
  }

  function Amount(o: Order, c: Coin): real { if o.coin == c then o.held else 0.0 }

  /** Taking any one order out accounts for exactly what it holds. */
  lemma {:induction false} HeldWithout<K>(m: map<K, Order>, k: K, c: Coin)
    requires k in m
    ensures Held(m, c) == Amount(m[k], c) + Held(m - {k}, c)
    decreases |m|
  {
    var j :| j in m && Held(m, c) == Amount(m[j], c) + Held(m - {j}, c);
    if j != k {
      HeldWithout(m - {j}, k, c);
      HeldWithout(m - {k}, j, c);
      assert m - {j} - {k} == m - {k} - {j};
    }
  }

  lemma HeldWith<K>(m: map<K, Order>, k: K, o: Order, c: Coin)
    requires k !in m
    ensures Held(m[k := o], c) == Amount(o, c) + Held(m, c)
  {
    HeldWithout(m[k := o], k, c);
    assert m[k := o] - {k} == m;
  }
}

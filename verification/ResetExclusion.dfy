/** Every interleaving of demo-account resets with the requests that move the account's
    money. A reset writes absolute balances, so it is right only as the last word: it takes
    the margin freeze, refuses while any flight is registered or any order rests, and only
    then writes, coin by coin. Requests register a flight before they touch a balance and
    deregister once everything they write is written.

    The machine is nondeterministic in everything the service does not control: who runs
    when, what dies, how far the clock moves. `Timely` and `Quiet` single out the runs the
    design relies on; the counterexamples at the end show neither can be dropped. */
module ResetExclusion {
  import opened AccountKeys
  import opened FreshNumbers
  import opened Options

  /** The books a reset enumerates, the coins it writes, and what it leaves in each. */
  datatype Venue = Venue(books: seq<BookId>, coins: seq<Coin>, seed: map<Coin, real>)

  /** Where a reset stands: freeze held; flights read and `next` books found clear; books
      clear and `next` coins written; or refusing. */
  datatype Phase = Holding | Scanning(next: nat) | Writing(next: nat) | Refusing

  datatype Reset = Reset(phase: Phase, expires: int)

  type Trade = nat

  datatype World = World(
    now: int,
    keys: Keys,
    requests: map<Token, int>,       // running requests, with the deadline each registered
    placing: map<Token, Order>,      // debited and not yet in a book
    refunding: map<Token, Order>,    // taken out of a book and not yet credited
    claimed: map<Token, OrderId>,    // which order a refunding request took
    resets: map<Token, Reset>,
    tokens: set<Token>,              // every token ever drawn
    published: set<OrderId>,         // every order id ever in a book
    refunded: set<OrderId>,
    owed: map<Trade, Order>,         // taken by the matcher for orders of the account, and not yet paid out
    lost: map<Coin, real>)           // held by requests that ended without placing or refunding it

  datatype Event =
    | Tick(to: int)
    | Register(t: Token, at: int)
    | Debit(t: Token, coin: Coin, amount: real)
    | Publish(t: Token, slot: Slot)
    | Cancel(t: Token, slot: Slot)
    | Refund(t: Token)
    | Grant(t: Token, coin: Coin, amount: real)
    | Finish(t: Token)
    | Crash(t: Token)
    | StartReset(r: Token)
    | ReadFlights(r: Token, at: int)
    | ScanBook(r: Token)
    | WriteCoin(r: Token)
    | EndReset(r: Token)
    | CrashReset(r: Token)
    | Close(t: Token, slot: Slot)             // the account is deactivated: a claim without a flight
    // the matcher takes a filled order out, if it is still there, and owes the proceeds
    | Match(trade: Trade, slot: Slot, due: Order)
    // the matcher writes what is left of a partly filled order, and owes the proceeds of the rest
    | PutBack(trade: Trade, slot: Slot, rest: Order, due: Order)
    | Settle(trade: Trade)

  predicate Idle(w: World, t: Token) { t in w.requests && t !in w.placing && t !in w.refunding }

  /** What can happen next. `at` is a clock reading the service took no later than now. */
  predicate Enabled(v: Venue, w: World, e: Event) {
    match e
    case Tick(to) => to >= w.now
    case Register(t, at) => t !in w.tokens && at <= w.now
    case Debit(t, _, _) => Idle(w, t)
    case Publish(t, s) => t in w.placing && s.book in v.books && s.id !in w.published
    case Cancel(t, _) => Idle(w, t)
    case Refund(t) => t in w.refunding && t in w.claimed
    case Grant(t, _, amount) => t in w.requests && amount >= 0.0
    case Finish(t) => t in w.requests
    case Crash(t) => t in w.requests || t in w.refunding
    case StartReset(r) => r !in w.tokens
    case ReadFlights(r, at) => r in w.resets && w.resets[r].phase.Holding? && at <= w.now
    case ScanBook(r) => r in w.resets && w.resets[r].phase.Scanning? && w.resets[r].phase.next < |v.books|
    case WriteCoin(r) => r in w.resets && w.resets[r].phase.Writing? && w.resets[r].phase.next < |v.coins|
    case EndReset(r) => r in w.resets
    case CrashReset(r) => r in w.resets
    case Close(t, s) => t !in w.tokens && t !in w.refunding && t !in w.claimed
    case Match(k, _, due) => k !in w.owed && due.held >= 0.0
    case PutBack(k, s, rest, due) =>
      k !in w.owed && due.held >= 0.0 && s.book in v.books && s.id in w.published && rest.held > 0.0
    case Settle(k) => k in w.owed
  }

  function AddLost(lost: map<Coin, real>, held: map<Token, Order>, t: Token): map<Coin, real> {
    if t in held then lost[held[t].coin := BalanceOf(lost, held[t].coin) + held[t].held] else lost
  }

  /** A request is over; what it still held comes back to nobody. */
  function Gone(w: World, t: Token): World {
    w.(requests := w.requests - {t}, placing := w.placing - {t}, refunding := w.refunding - {t},
       claimed := w.claimed - {t}, lost := AddLost(AddLost(w.lost, w.placing, t), w.refunding, t))
  }

  function At(w: World, r: Token, p: Phase): World
    requires r in w.resets
  {
    w.(resets := w.resets[r := w.resets[r].(phase := p)])
  }

  /** Whoever takes the row out owns the refund. */
  function Claim(w: World, t: Token, s: Slot): World {
    var (k, taken) := GetDel(w.keys, s);
    w.(keys := k,
       refunding := if taken.Some? then w.refunding[t := taken.value] else w.refunding,
       claimed := if taken.Some? then w.claimed[t := s.id] else w.claimed)
  }

  function Step(v: Venue, w: World, e: Event): World
    requires Enabled(v, w, e)
  {
    match e
    case Tick(to) => w.(now := to)
    case Register(t, at) =>
      var (k, ok) := BeginFlight(w.keys, w.now, t, at + VALUE_FLIGHT_TTL_MS, VALUE_FLIGHT_TTL_MS);
      w.(keys := k, tokens := w.tokens + {t},
         requests := if ok then w.requests[t := at + VALUE_FLIGHT_TTL_MS] else w.requests)
    case Debit(t, c, amount) =>
      var (k, ok) := Reserve(w.keys, w.now, c, amount);
      w.(keys := k, placing := if ok then w.placing[t := Order(c, amount)] else w.placing)
    case Publish(t, s) =>
      w.(keys := w.keys.(rows := w.keys.rows[s := w.placing[t]]), placing := w.placing - {t},
         published := w.published + {s.id})
    case Cancel(t, s) => Claim(w, t, s)
    case Close(t, s) => Claim(w.(tokens := w.tokens + {t}), t, s)
    case Refund(t) =>
      w.(keys := Apply(w.keys, w.refunding[t].coin, w.refunding[t].held), refunding := w.refunding - {t},
         refunded := w.refunded + {w.claimed[t]}, claimed := w.claimed - {t})
    case Grant(_, c, amount) => w.(keys := Apply(w.keys, c, amount))
    case Finish(t) => Gone(w.(keys := w.keys.(flights := w.keys.flights - {t})), t)
    case Crash(t) => Gone(w, t)
    case StartReset(r) =>
      var (k, ok) := ClaimOnce(w.keys, w.now, r, MARGIN_FREEZE_TTL_MS);
      w.(keys := k, tokens := w.tokens + {r},
         resets := if ok then w.resets[r := Reset(Holding, w.now + MARGIN_FREEZE_TTL_MS)] else w.resets)
    case ReadFlights(r, at) =>
      At(w, r, if LiveFlights(w.keys, w.now, at) == {} && |v.books| > 0 then Scanning(0) else Refusing)
    case ScanBook(r) =>
      var i := w.resets[r].phase.next;
      At(w, r, if exists s :: s in w.keys.rows && s.book == v.books[i] then Refusing
               else if i + 1 < |v.books| then Scanning(i + 1) else Writing(0))
    case WriteCoin(r) =>
      var i := w.resets[r].phase.next;
      var balance := w.keys.balance[v.coins[i] := BalanceOf(v.seed, v.coins[i])];
      At(w.(keys := w.keys.(balance := balance)), r, Writing(i + 1))
    case EndReset(r) =>
      w.(keys := ReleaseClaim(w.keys, w.now, r).0, resets := w.resets - {r})
    case CrashReset(r) => w.(resets := w.resets - {r})
    case Match(k, s, due) => w.(keys := w.keys.(rows := w.keys.rows - {s}), owed := w.owed[k := due])
    case PutBack(k, s, rest, due) =>
      w.(keys := w.keys.(rows := w.keys.rows[s := rest]), owed := w.owed[k := due])
    case Settle(k) => w.(keys := Apply(w.keys, w.owed[k].coin, w.owed[k].held), owed := w.owed - {k})
  }

  predicate Allowed(v: Venue, w: World, es: seq<Event>)
    decreases |es|
  {
    es == [] || (Enabled(v, w, es[0]) && Allowed(v, Step(v, w, es[0]), es[1..]))
  }

  function Run(v: Venue, w: World, es: seq<Event>): World
    requires Allowed(v, w, es)
    decreases |es|
  {
    if es == [] then w else Run(v, Step(v, w, es[0]), es[1..])
  }

  /** No request outlives the deadline it registered, and no reset outlives its freeze. */
  predicate Timely(w: World, e: Event) {
    match e
    case Tick(to) =>
      && (forall t | t in w.requests :: to < w.requests[t])
      && (forall r | r in w.resets :: to < w.resets[r].expires)
    case Register(_, at) => w.now < at + VALUE_FLIGHT_TTL_MS
    case _ => true
  }

  /** A step of the engine loop. */
  predicate Matching(e: Event) { e.Match? || e.PutBack? || e.Settle? }

  /** No writer that registers no flight: neither the matcher nor an account closure. */
  predicate Quiet(e: Event) { !Matching(e) && !e.Close? }

  predicate Orderly(v: Venue, w: World, es: seq<Event>)
    requires Allowed(v, w, es)
    decreases |es|
  {
    es == [] || (Timely(w, es[0]) && Quiet(es[0]) && Orderly(v, Step(v, w, es[0]), es[1..]))
  }

  /** Only time and the flightless writers break the discipline: a run of anything else is orderly,
      and so is a wait while nobody runs. */
  lemma {:induction false} UntickedIsOrderly(v: Venue, w: World, es: seq<Event>)
    requires Allowed(v, w, es)
    requires forall e | e in es :: && !e.Tick? && !e.Match? && !e.PutBack? && !e.Settle? && !e.Close?
                                   && (e.Register? ==> w.now - 30000 < e.at)
    ensures Orderly(v, w, es)
    ensures w.requests == map[] && w.resets == map[] ==> forall to: int :: Timely(w, Tick(to))
    decreases |es|
  {
    if es != [] {
      assert es[0] in es;
      assert Step(v, w, es[0]).now == w.now;
      UntickedIsOrderly(v, Step(v, w, es[0]), es[1..]);
    }
  }

  // ---------------------------------------------------------------- the exclusion

  /** Whoever is still resetting holds the one freeze there is. */
  predicate FreezeHeld(w: World) {
    forall r | r in w.resets ::
      w.keys.freeze == Some(Freeze(r, w.resets[r].expires)) && w.now < w.resets[r].expires && r in w.tokens
  }

  /** Every running request is on the registry, under a deadline still ahead, and the hash
      outlives every deadline in it. */
  predicate Registered(w: World) {
    && w.keys.flightsExpire <= w.now + VALUE_FLIGHT_TTL_MS
    && (forall t | t in w.requests ::
          && t in w.tokens
          && w.now < w.requests[t] <= w.keys.flightsExpire
          && t in w.keys.flights && w.keys.flights[t] == w.requests[t])
    && w.placing.Keys <= w.requests.Keys
    && w.refunding.Keys <= w.requests.Keys
  }

  predicate RowsEnumerated(v: Venue, w: World) { forall s | s in w.keys.rows :: s.book in v.books }

  predicate ClearUpTo(v: Venue, w: World, n: nat)
    requires n <= |v.books|
  {
    forall s | s in w.keys.rows :: s.book !in v.books[..n]
  }

  predicate SeededUpTo(v: Venue, w: World, n: nat)
    requires n <= |v.coins|
  {
    forall i | 0 <= i < n :: BalanceOf(w.keys.balance, v.coins[i]) == BalanceOf(v.seed, v.coins[i])
  }

  /** What a reset has established by the time it reaches each phase stays true under it. */
  predicate Established(v: Venue, w: World, p: Phase) {
    match p
    case Holding => true
    case Refusing => true
    case Scanning(i) => w.requests == map[] && i < |v.books| && ClearUpTo(v, w, i)
    case Writing(i) => w.requests == map[] && w.keys.rows == map[] && i <= |v.coins| && SeededUpTo(v, w, i)
  }

  predicate Exclusive(v: Venue, w: World) {
    && FreezeHeld(w) && Registered(w) && RowsEnumerated(v, w) && w.owed == map[]
    && forall r | r in w.resets :: Established(v, w, w.resets[r].phase)
  }

  lemma NobodyElseResets(w: World, r: Token)
    requires FreezeHeld(w) && r in w.resets
    ensures w.resets.Keys == {r} && Frozen(w.keys, w.now)
  {
    forall q | q in w.resets ensures q == r {
      assert w.keys.freeze == Some(Freeze(q, w.resets[q].expires));
    }
  }

  lemma NobodyResetsUnfrozen(w: World)
    requires FreezeHeld(w) && !Frozen(w.keys, w.now)
    ensures w.resets == map[]
  {
    if r :| r in w.resets {
      NobodyElseResets(w, r);
    }
  }

  lemma ClockKeepsExclusion(v: Venue, w: World, e: Event)
    requires Exclusive(v, w) && Enabled(v, w, e) && Timely(w, e) && e.Tick?
    ensures Exclusive(v, Step(v, w, e))
  {}

  lemma RegisterKeepsExclusion(v: Venue, w: World, e: Event)
    requires Exclusive(v, w) && Enabled(v, w, e) && Timely(w, e) && e.Register?
    ensures Exclusive(v, Step(v, w, e))
  {
    if !Frozen(w.keys, w.now) {
      NobodyResetsUnfrozen(w);
    }
  }

  /** While a request runs, no reset has got past the flight registry. */
  lemma RequestKeepsExclusion(v: Venue, w: World, e: Event)
    requires Exclusive(v, w) && Enabled(v, w, e)
    requires e.Debit? || e.Publish? || e.Cancel? || e.Refund? || e.Grant? || e.Finish? || e.Crash?
    ensures Exclusive(v, Step(v, w, e))
  {
    var t := e.t;
    assert t in w.requests;
    forall r | r in w.resets ensures w.resets[r].phase.Holding? || w.resets[r].phase.Refusing? {
      assert Established(v, w, w.resets[r].phase);
    }
  }

  lemma StartKeepsExclusion(v: Venue, w: World, e: Event)
    requires Exclusive(v, w) && Enabled(v, w, e) && e.StartReset?
    ensures Exclusive(v, Step(v, w, e))
  {
    if !Frozen(w.keys, w.now) {
      NobodyResetsUnfrozen(w);
    }
  }

  lemma EndKeepsExclusion(v: Venue, w: World, e: Event)
    requires Exclusive(v, w) && Enabled(v, w, e) && (e.EndReset? || e.CrashReset?)
    ensures Exclusive(v, Step(v, w, e))
  {
    NobodyElseResets(w, e.r);
    assert Step(v, w, e).resets == map[];
  }

  lemma ScanKeepsExclusion(v: Venue, w: World, e: Event)
    requires Exclusive(v, w) && Enabled(v, w, e) && e.ScanBook?
    ensures Exclusive(v, Step(v, w, e))
  {
    NobodyElseResets(w, e.r);
    assert Established(v, w, w.resets[e.r].phase);
    var i := w.resets[e.r].phase.next;
    if !(exists s :: s in w.keys.rows && s.book == v.books[i]) {
      assert v.books[..i + 1] == v.books[..i] + [v.books[i]];
      if i + 1 == |v.books| {
        assert v.books[..i + 1] == v.books;
        assert forall s | s in w.keys.rows :: s.book in v.books;
        assert w.keys.rows == map[];
      }
    }
  }

  lemma WriteKeepsExclusion(v: Venue, w: World, e: Event)
    requires Exclusive(v, w) && Enabled(v, w, e) && e.WriteCoin?
    ensures Exclusive(v, Step(v, w, e))
  {
    NobodyElseResets(w, e.r);
    assert Established(v, w, w.resets[e.r].phase);
  }

  lemma ReadingKeepsExclusion(v: Venue, w: World, e: Event)
    requires Exclusive(v, w) && Enabled(v, w, e) && e.ReadFlights?
    ensures Exclusive(v, Step(v, w, e))
  {
    NobodyElseResets(w, e.r);
    if t :| t in w.requests {
      assert w.keys.flights[t] > e.at;
      assert t in LiveFlights(w.keys, w.now, e.at);
    } else {
      assert w.requests == map[];
    }
  }

  lemma StepKeepsExclusion(v: Venue, w: World, e: Event)
    requires Exclusive(v, w) && Enabled(v, w, e) && Timely(w, e) && Quiet(e)
    ensures Exclusive(v, Step(v, w, e))
  {
    hide *;
    match e {
      case Tick(_) => ClockKeepsExclusion(v, w, e);
      case Register(_, _) => RegisterKeepsExclusion(v, w, e);
      case ReadFlights(_, _) => ReadingKeepsExclusion(v, w, e);
      case StartReset(_) => StartKeepsExclusion(v, w, e);
      case EndReset(_) => EndKeepsExclusion(v, w, e);
      case CrashReset(_) => EndKeepsExclusion(v, w, e);
      case ScanBook(_) => ScanKeepsExclusion(v, w, e);
      case WriteCoin(_) => WriteKeepsExclusion(v, w, e);
      case _ => RequestStep(v, w, e);
    }
  }

  lemma RequestStep(v: Venue, w: World, e: Event)
    requires Exclusive(v, w) && Enabled(v, w, e) && Quiet(e)
    requires !e.Tick? && !e.Register? && !e.ReadFlights? && !e.StartReset? && !e.EndReset?
          && !e.CrashReset? && !e.ScanBook? && !e.WriteCoin?
    ensures Exclusive(v, Step(v, w, e))
  {
    RequestKeepsExclusion(v, w, e);
  }

  lemma {:induction false} RunKeepsExclusion(v: Venue, w: World, es: seq<Event>)
    requires Exclusive(v, w) && Allowed(v, w, es) && Orderly(v, w, es)
    ensures Exclusive(v, Run(v, w, es))
    decreases |es|
  {
    if es != [] {
      StepKeepsExclusion(v, w, es[0]);
      RunKeepsExclusion(v, Step(v, w, es[0]), es[1..]);
    }
  }

  /** An account at rest: nobody runs, nobody holds anything that is not in a book. */
  predicate AtRest(v: Venue, w: World) {
    && w.requests == map[] && w.placing == map[] && w.refunding == map[] && w.claimed == map[] && w.resets == map[]
    && w.keys.flightsExpire <= w.now
    && w.owed == map[]
    && RowsEnumerated(v, w)
  }

  /** Everything the account can still turn into coin `c`. */
  ghost function Wealth(w: World, c: Coin): real {
    BalanceOf(w.keys.balance, c) + Outside(w, c)
  }

  /** What the account holds of a coin outside its balance: resting, debited, claimed, or in the
      matcher's hands. */
  ghost function Outside(w: World, c: Coin): real {
    Held(w.keys.rows, c) + Held(w.placing, c) + Held(w.refunding, c) + Held(w.owed, c)
  }

  /** A reset that writes its last coin is the last word: nothing is in flight, nothing
      rests, and the account's whole wealth in every coin is the seed. */
  lemma ResetIsTheLastWord(v: Venue, w: World, es: seq<Event>, r: Token)
    requires AtRest(v, w) && Allowed(v, w, es) && Orderly(v, w, es)
    requires var w' := Run(v, w, es); r in w'.resets && w'.resets[r].phase == Writing(|v.coins|)
    ensures var w' := Run(v, w, es);
            && w'.requests == map[] && w'.keys.rows == map[]
            && forall c | c in v.coins :: BalanceOf(w'.keys.balance, c) == Wealth(w', c) == BalanceOf(v.seed, c)
  {
    RunKeepsExclusion(v, w, es);
    var w' := Run(v, w, es);
    assert Established(v, w', w'.resets[r].phase);
    assert w'.placing == map[] && w'.refunding == map[];
  }

  // ---------------------------------------------------------------- conservation

  /** What a grant adds to the account. */
  function Added(e: Event, c: Coin): real { if e.Grant? && e.coin == c then e.amount else 0.0 }

  function Resting(w: World, s: Slot, c: Coin): real { if s in w.keys.rows then Amount(w.keys.rows[s], c) else 0.0 }

  /** What a match brings the account in a coin, less what it takes. */
  function Brought(w: World, e: Event, c: Coin): real {
    match e
    case Match(_, s, due) => Amount(due, c) - Resting(w, s, c)
    case PutBack(_, s, rest, due) => Amount(due, c) + Amount(rest, c) - Resting(w, s, c)
    case _ => 0.0
  }

  ghost function Accounted(w: World, c: Coin): real { Wealth(w, c) + BalanceOf(w.lost, c) }

  predicate IdsPublished(w: World) { forall s | s in w.keys.rows :: s.id in w.published }

  lemma PlacingConserves(v: Venue, w: World, e: Event, c: Coin)
    requires Enabled(v, w, e) && (e.Debit? || e.Publish?)
    requires IdsPublished(w)
    ensures Accounted(Step(v, w, e), c) == Accounted(w, c)
  {
    if e.Debit? {
      if Reserve(w.keys, w.now, e.coin, e.amount).1 {
        HeldWith(w.placing, e.t, Order(e.coin, e.amount), c);
      }
    } else {
      assert e.slot !in w.keys.rows;
      HeldWith(w.keys.rows, e.slot, w.placing[e.t], c);
      HeldWithout(w.placing, e.t, c);
    }
  }

  lemma ClaimConserves(w: World, t: Token, s: Slot, c: Coin)
    requires t !in w.refunding
    ensures Accounted(Claim(w, t, s), c) == Accounted(w, c)
  {
    if s in w.keys.rows {
      HeldWithout(w.keys.rows, s, c);
      HeldWith(w.refunding, t, w.keys.rows[s], c);
    }
  }

  lemma RefundConserves(v: Venue, w: World, t: Token, c: Coin)
    requires Enabled(v, w, Refund(t))
    ensures Accounted(Step(v, w, Refund(t)), c) == Accounted(w, c)
  {
    HeldWithout(w.refunding, t, c);
  }

  lemma CancellingConserves(v: Venue, w: World, e: Event, c: Coin)
    requires Enabled(v, w, e) && (e.Cancel? || e.Close? || e.Refund?)
    ensures Accounted(Step(v, w, e), c) == Accounted(w, c)
  {
    if e.Refund? {
      RefundConserves(v, w, e.t, c);
    } else {
      var w1 := if e.Close? then w.(tokens := w.tokens + {e.t}) else w;
      ClaimConserves(w1, e.t, e.slot, c);
      hide Claim, Held;
    }
  }

  lemma EndingConserves(v: Venue, w: World, e: Event, c: Coin)
    requires Enabled(v, w, e) && (e.Finish? || e.Crash?)
    ensures Accounted(Step(v, w, e), c) == Accounted(w, c)
  {
    LosingAccounts(w.lost, w.placing, e.t, c);
    LosingAccounts(AddLost(w.lost, w.placing, e.t), w.refunding, e.t, c);
  }

  lemma LosingAccounts(lost: map<Coin, real>, held: map<Token, Order>, t: Token, c: Coin)
    ensures BalanceOf(AddLost(lost, held, t), c) + Held(held - {t}, c) == BalanceOf(lost, c) + Held(held, c)
  {
    if t in held {
      HeldWithout(held, t, c);
    } else {
      assert held - {t} == held;
    }
  }

  lemma RowTaken(rows: map<Slot, Order>, s: Slot, c: Coin)
    ensures Held(rows, c) == (if s in rows then Amount(rows[s], c) else 0.0) + Held(rows - {s}, c)
  {
    if s in rows {
      HeldWithout(rows, s, c);
    } else {
      assert rows - {s} == rows;
    }
  }

  lemma MatchingConserves(v: Venue, w: World, e: Event, c: Coin)
    requires Enabled(v, w, e) && Matching(e)
    ensures Accounted(Step(v, w, e), c) == Accounted(w, c) + Brought(w, e, c)
  {
    match e
    case Match(k, s, due) =>
      RowTaken(w.keys.rows, s, c);
      HeldWith(w.owed, k, due, c);
    case PutBack(k, s, rest, due) =>
      RowTaken(w.keys.rows, s, c);
      RowTaken(w.keys.rows[s := rest], s, c);
      assert w.keys.rows[s := rest] - {s} == w.keys.rows - {s};
      HeldWith(w.owed, k, due, c);
    case Settle(k) =>
      HeldWithout(w.owed, k, c);
  }

  lemma OthersConserve(v: Venue, w: World, e: Event, c: Coin)
    requires Enabled(v, w, e)
    requires e.Tick? || e.Register? || e.Grant? || e.StartReset? || e.ReadFlights? || e.ScanBook? || e.EndReset?
          || e.CrashReset?
    ensures Accounted(Step(v, w, e), c) == Accounted(w, c) + Added(e, c)
  {
    hide Held, Frozen, LiveFlights;
  }

  /** Whatever a request or the matcher does, and wherever it dies, moves value between the balance,
      the books, the hands of requests and the hands of the matcher; only a grant adds any, and a
      match trades some of one coin for some of another. */
  lemma StepConserves(v: Venue, w: World, e: Event, c: Coin)
    requires Enabled(v, w, e) && !e.WriteCoin?
    requires IdsPublished(w)
    ensures Accounted(Step(v, w, e), c) == Accounted(w, c) + Added(e, c) + Brought(w, e, c)
  {
    hide Step, Enabled, Accounted, IdsPublished, Resting;
    if e.Debit? || e.Publish? {
      PlacingConserves(v, w, e, c);
    } else if e.Cancel? || e.Close? || e.Refund? {
      CancellingConserves(v, w, e, c);
    } else if e.Finish? || e.Crash? {
      EndingConserves(v, w, e, c);
    } else if Matching(e) {
      MatchingConserves(v, w, e, c);
    } else {
      OthersConserve(v, w, e, c);
    }
  }

  function Granted(es: seq<Event>, c: Coin): real {
    if es == [] then 0.0 else Added(es[0], c) + Granted(es[1..], c)
  }

  /** What the matches of a run bring, less what they take. */
  function Traded(v: Venue, w: World, es: seq<Event>, c: Coin): real
    requires Allowed(v, w, es)
    decreases |es|
  {
    if es == [] then 0.0 else Brought(w, es[0], c) + Traded(v, Step(v, w, es[0]), es[1..], c)
  }

  predicate Conserving(es: seq<Event>) { forall e | e in es :: !e.WriteCoin? }

  lemma StepKeepsIds(v: Venue, w: World, e: Event)
    requires Enabled(v, w, e) && IdsPublished(w)
    ensures IdsPublished(Step(v, w, e))
  {}

  /** Place, cancel, close and settle conserve value over every interleaving, timely or not, but for
      what grants add and matches trade. */
  lemma {:induction false} RunConserves(v: Venue, w: World, es: seq<Event>, c: Coin)
    requires Allowed(v, w, es) && Conserving(es) && IdsPublished(w)
    ensures Accounted(Run(v, w, es), c) == Accounted(w, c) + Granted(es, c) + Traded(v, w, es, c)
    decreases |es|
  {
    hide Step, Enabled, Accounted, Added, Brought, IdsPublished;
    if es != [] {
      StepConserves(v, w, es[0], c);
      StepKeepsIds(v, w, es[0]);
      RunConserves(v, Step(v, w, es[0]), es[1..], c);
    }
  }

  // ---------------------------------------------------------------- no overdraft, no double refund

  predicate Solvent(w: World) {
    && (forall c | c in w.keys.balance :: w.keys.balance[c] >= 0.0)
    && (forall s | s in w.keys.rows :: w.keys.rows[s].held > 0.0)
    && (forall t | t in w.placing :: w.placing[t].held > 0.0)
    && (forall t | t in w.refunding :: w.refunding[t].held > 0.0)
    && (forall k | k in w.owed :: w.owed[k].held >= 0.0)
  }

  /** Each published order is in one place: resting, claimed by one request, refunded, or gone. */
  predicate PaidOnce(w: World) {
    && w.claimed.Keys == w.refunding.Keys
    && (forall s | s in w.keys.rows :: s.id in w.published && s.id !in w.refunded && s.id !in w.claimed.Values)
    && (forall s, s' | s in w.keys.rows && s' in w.keys.rows && s.id == s'.id :: s == s')
    && (forall t | t in w.claimed :: w.claimed[t] in w.published && w.claimed[t] !in w.refunded)
    && (forall t, u | t in w.claimed && u in w.claimed && w.claimed[t] == w.claimed[u] :: t == u)
    && w.refunded <= w.published
  }

  lemma BalancesStaySolvent(v: Venue, w: World, e: Event)
    requires Enabled(v, w, e) && Solvent(w)
    requires e.Debit? || e.Refund? || e.Grant? || e.WriteCoin? || e.Settle?
    requires forall c | c in v.seed :: v.seed[c] >= 0.0
    ensures Solvent(Step(v, w, e))
  {}

  lemma RowsStaySolvent(v: Venue, w: World, e: Event)
    requires Enabled(v, w, e) && Solvent(w)
    requires e.Publish? || e.Cancel? || e.Close? || e.Match? || e.PutBack? || e.Finish? || e.Crash?
    ensures Solvent(Step(v, w, e))
  {}

  lemma OthersStaySolvent(v: Venue, w: World, e: Event)
    requires Enabled(v, w, e) && Solvent(w)
    requires e.Tick? || e.Register? || e.StartReset? || e.ReadFlights? || e.ScanBook? || e.EndReset? || e.CrashReset?
    ensures Solvent(Step(v, w, e))
  {}

  lemma StepKeepsSolvent(v: Venue, w: World, e: Event)
    requires Enabled(v, w, e) && Solvent(w)
    requires forall c | c in v.seed :: v.seed[c] >= 0.0
    ensures Solvent(Step(v, w, e))
  {
    hide *;
    match e {
      case Debit(_, _, _) => BalancesStaySolvent(v, w, e);
      case Refund(_) => BalancesStaySolvent(v, w, e);
      case Grant(_, _, _) => BalancesStaySolvent(v, w, e);
      case WriteCoin(_) => BalancesStaySolvent(v, w, e);
      case Settle(_) => BalancesStaySolvent(v, w, e);
      case Publish(_, _) => RowsStaySolvent(v, w, e);
      case Cancel(_, _) => RowsStaySolvent(v, w, e);
      case Close(_, _) => RowsStaySolvent(v, w, e);
      case Match(_, _, _) => RowsStaySolvent(v, w, e);
      case PutBack(_, _, _, _) => RowsStaySolvent(v, w, e);
      case Finish(_) => RowsStaySolvent(v, w, e);
      case Crash(_) => RowsStaySolvent(v, w, e);
      case _ => OthersStaySolvent(v, w, e);
    }
  }

  /** Nobody has taken the order at this slot out of the books, or found it elsewhere in them. */
  predicate StillOurs(w: World, s: Slot) {
    && s.id !in w.refunded && s.id !in w.claimed.Values
    && forall q | q in w.keys.rows && q.id == s.id :: q == s
  }

  /** The steps that neither move an order nor settle one. */
  predicate LeavesOrders(e: Event) {
    e.Tick? || e.Register? || e.Debit? || e.Grant? || e.StartReset? || e.ReadFlights? || e.ScanBook? || e.WriteCoin?
    || e.EndReset? || e.CrashReset? || e.Settle?
  }

  lemma OrdersLeft(v: Venue, w: World, e: Event)
    requires Enabled(v, w, e) && LeavesOrders(e)
    ensures var w' := Step(v, w, e);
            && w'.keys.rows == w.keys.rows && w'.refunding == w.refunding && w'.claimed == w.claimed
            && w'.refunded == w.refunded && w'.published == w.published
  {}

  lemma ClaimPaysOnce(w: World, t: Token, s: Slot)
    requires PaidOnce(w) && t !in w.refunding
    ensures PaidOnce(Claim(w, t, s))
  {
    var w' := Claim(w, t, s);
    forall u | u in w.claimed ensures u in w'.claimed && w'.claimed[u] == w.claimed[u] {}
  }

  lemma PuttingPaysOnce(v: Venue, w: World, e: Event)
    requires Enabled(v, w, e) && PaidOnce(w)
    requires e.Publish? || e.Match? || (e.PutBack? && StillOurs(w, e.slot))
    ensures PaidOnce(Step(v, w, e))
  {}

  lemma EndingPaysOnce(v: Venue, w: World, e: Event)
    requires Enabled(v, w, e) && PaidOnce(w) && (e.Refund? || e.Finish? || e.Crash?)
    ensures PaidOnce(Step(v, w, e))
  {
    var w' := Step(v, w, e);
    forall t | t in w'.claimed ensures t in w.claimed && w'.claimed[t] == w.claimed[t] {}
  }

  lemma TokensApart(w: World, w': World)
    requires PaidOnce(w) && w' == w.(tokens := w'.tokens)
    ensures PaidOnce(w')
  {}

  lemma SameOrders(w: World, w': World)
    requires PaidOnce(w) && w'.keys.rows == w.keys.rows && w'.refunding == w.refunding && w'.claimed == w.claimed
    requires w'.refunded == w.refunded && w'.published == w.published
    ensures PaidOnce(w')
  {}

  lemma StepKeepsPaidOnce(v: Venue, w: World, e: Event)
    requires Enabled(v, w, e) && PaidOnce(w) && (e.PutBack? ==> StillOurs(w, e.slot))
    ensures PaidOnce(Step(v, w, e))
    ensures e.Refund? ==> w.claimed[e.t] !in w.refunded && w.claimed[e.t] in Step(v, w, e).refunded
    ensures w.refunded <= Step(v, w, e).refunded
  {
    if LeavesOrders(e) {
      OrdersLeft(v, w, e);
      hide *;
      SameOrders(w, Step(v, w, e));
    } else if e.Cancel? {
      ClaimPaysOnce(w, e.t, e.slot);
    } else if e.Close? {
      TokensApart(w, w.(tokens := w.tokens + {e.t}));
      ClaimPaysOnce(w.(tokens := w.tokens + {e.t}), e.t, e.slot);
    } else if e.Publish? || e.Match? || e.PutBack? {
      PuttingPaysOnce(v, w, e);
    } else {
      EndingPaysOnce(v, w, e);
    }
  }

  /** Over every run, the matcher's and untimely ones included, no balance is negative at any step. */
  lemma {:induction false} RunNeverOverdraws(v: Venue, w: World, es: seq<Event>)
    requires Allowed(v, w, es) && Solvent(w)
    requires forall c | c in v.seed :: v.seed[c] >= 0.0
    ensures Solvent(Run(v, w, es))
    decreases |es|
  {
    if es != [] {
      StepKeepsSolvent(v, w, es[0]);
      RunNeverOverdraws(v, Step(v, w, es[0]), es[1..]);
    }
  }

  /** Every put-back of the run is of an order still there. */
  predicate NothingRevived(v: Venue, w: World, es: seq<Event>)
    requires Allowed(v, w, es)
    decreases |es|
  {
    es == [] || ((es[0].PutBack? ==> StillOurs(w, es[0].slot)) && NothingRevived(v, Step(v, w, es[0]), es[1..]))
  }

  /** Every refund of the run pays an order that has not been refunded. */
  predicate RefundsOnce(v: Venue, w: World, es: seq<Event>)
    requires Allowed(v, w, es)
    decreases |es|
  {
    es == []
    || ((es[0].Refund? ==> w.claimed[es[0].t] !in w.refunded) && RefundsOnce(v, Step(v, w, es[0]), es[1..]))
  }

  /** Over every run in which no put-back revives a claimed order, each order is refunded once at
      most. */
  lemma {:induction false} RunPaysOnce(v: Venue, w: World, es: seq<Event>)
    requires Allowed(v, w, es) && PaidOnce(w) && NothingRevived(v, w, es)
    ensures RefundsOnce(v, w, es) && PaidOnce(Run(v, w, es))
    decreases |es|
  {
    if es != [] {
      StepKeepsPaidOnce(v, w, es[0]);
      hide Step, Enabled, PaidOnce, StillOurs;
      RunPaysOnce(v, Step(v, w, es[0]), es[1..]);
    }
  }

  /** However the run goes on without reviving an order, none is refunded twice. */
  ghost predicate RefundsStayOnce(v: Venue, w: World) {
    forall es | Allowed(v, w, es) && NothingRevived(v, w, es) :: RefundsOnce(v, w, es)
  }

  /** A run that refunds an order again. */
  predicate RefundsAgain(v: Venue, w: World, es: seq<Event>) {
    Allowed(v, w, es) && NothingRevived(v, w, es) && !RefundsOnce(v, w, es)
  }

  lemma FirstThen(v: Venue, w: World, e: Event, es: seq<Event>)
    requires Enabled(v, w, e) && !e.PutBack? && RefundsAgain(v, Step(v, w, e), es)
    ensures RefundsAgain(v, w, [e] + es)
  {
    assert ([e] + es)[1..] == es;
  }

  predicate Unused(w: World, t: Token) { t !in w.tokens && t !in w.refunding && t !in w.claimed }

  /** An order of an id that has been refunded, back in a book, is claimed and refunded again. */
  lemma ClaimedAgain(v: Venue, w: World, t: Token, s: Slot)
    requires Unused(w, t) && s in w.keys.rows && s.id in w.refunded
    ensures RefundsAgain(v, w, [Close(t, s), Refund(t)])
  {
    var w1 := Step(v, w, Close(t, s));
    assert t in w1.refunding && w1.claimed[t] == s.id && w1.refunded == w.refunded;
    assert [Close(t, s), Refund(t)][1..] == [Refund(t)] && [Refund(t)][1..] == [];
    assert !RefundsOnce(v, w1, [Refund(t)]);
  }

  /** After a put-back of an order that is not the account's to rest any more, some run refunds an
      order twice. */
  lemma RevivedIsRefundedAgain(v: Venue, w: World, s: Slot) returns (es: seq<Event>)
    requires s in w.keys.rows && w.claimed.Keys == w.refunding.Keys
    requires s.id in w.refunded || s.id in w.claimed.Values || exists q :: q in w.keys.rows && q.id == s.id && q != s
    ensures RefundsAgain(v, w, es)
  {
    var t := Fresh(w.tokens + w.refunding.Keys + w.claimed.Keys);
    assert Unused(w, t) && Unused(w, t + 1);
    if s.id in w.refunded {
      ClaimedAgain(v, w, t, s);
      es := [Close(t, s), Refund(t)];
    } else if s.id in w.claimed.Values {
      var u :| u in w.claimed && w.claimed[u] == s.id;
      ClaimedAgain(v, Step(v, w, Refund(u)), t, s);
      hide RefundsAgain;
      FirstThen(v, w, Refund(u), [Close(t, s), Refund(t)]);
      es := [Refund(u)] + [Close(t, s), Refund(t)];
    } else {
      var q :| q in w.keys.rows && q.id == s.id && q != s;
      es := RefundedFromBoth(v, w, s, q, t);
    }
  }

  lemma RefundedFromBoth(v: Venue, w: World, s: Slot, q: Slot, t: Token) returns (es: seq<Event>)
    requires s in w.keys.rows && q in w.keys.rows && q.id == s.id && q != s && Unused(w, t) && Unused(w, t + 1)
    ensures RefundsAgain(v, w, es)
  {
    var w1 := Step(v, w, Close(t, s));
    assert t in w1.refunding && w1.claimed[t] == s.id && q in w1.keys.rows && Unused(w1, t + 1);
    var w2 := Step(v, w1, Refund(t));
    assert s.id in w2.refunded && q in w2.keys.rows && Unused(w2, t + 1);
    ClaimedAgain(v, w2, t + 1, q);
    hide RefundsAgain;
    es := [Close(t + 1, q), Refund(t + 1)];
    FirstThen(v, w1, Refund(t), es);
    FirstThen(v, w, Close(t, s), [Refund(t)] + es);
    es := [Close(t, s)] + ([Refund(t)] + es);
  }

  /** The matcher writes a partly filled order back without asking whether it is still there. From
      then on no run that revives nothing more refunds an order twice, if and only if nobody had
      claimed the order and it rested nowhere else. */
  lemma PutBackPaysOnceIff(v: Venue, w: World, k: Trade, s: Slot, rest: Order, due: Order)
    requires PaidOnce(w) && Enabled(v, w, PutBack(k, s, rest, due))
    ensures RefundsStayOnce(v, Step(v, w, PutBack(k, s, rest, due))) <==> StillOurs(w, s)
  {
    var w' := Step(v, w, PutBack(k, s, rest, due));
    if StillOurs(w, s) {
      StepKeepsPaidOnce(v, w, PutBack(k, s, rest, due));
      forall es | Allowed(v, w', es) && NothingRevived(v, w', es) ensures RefundsOnce(v, w', es) {
        RunPaysOnce(v, w', es);
      }
    } else {
      forall q | q in w.keys.rows ensures q in w'.keys.rows {}
      var es := RevivedIsRefundedAgain(v, w', s);
    }
  }

  lemma {:induction false} LostOnlyGrows(v: Venue, w: World, es: seq<Event>, c: Coin)
    requires Allowed(v, w, es) && Solvent(w)
    requires forall c | c in v.seed :: v.seed[c] >= 0.0
    ensures BalanceOf(Run(v, w, es).lost, c) >= BalanceOf(w.lost, c)
    decreases |es|
  {
    if es != [] {
      StepKeepsSolvent(v, w, es[0]);
      LossIsNeverNegative(v, w, es[0], c);
      hide Step, Enabled, Solvent;
      LostOnlyGrows(v, Step(v, w, es[0]), es[1..], c);
    }
  }

  lemma LossIsNeverNegative(v: Venue, w: World, e: Event, c: Coin)
    requires Enabled(v, w, e) && Solvent(w)
    ensures BalanceOf(Step(v, w, e).lost, c) >= BalanceOf(w.lost, c)
  {}

  /** No mint: after a completed reset, and until another one writes, all the account can reach in a
      coin is the seed plus what it was granted and traded for, less what dead requests dropped. */
  lemma NoMintAfterReset(v: Venue, w: World, es: seq<Event>, r: Token, more: seq<Event>, c: Coin)
    requires AtRest(v, w) && Allowed(v, w, es) && Orderly(v, w, es)
    requires Solvent(w) && forall c | c in v.seed :: v.seed[c] >= 0.0
    requires var w' := Run(v, w, es); r in w'.resets && w'.resets[r].phase == Writing(|v.coins|)
    requires Allowed(v, Run(v, w, es), more) && Conserving(more) && c in v.coins
    ensures var w' := Run(v, w, es);
            var w'' := Run(v, w', more);
            && Wealth(w'', c) <= BalanceOf(v.seed, c) + Granted(more, c) + Traded(v, w', more, c)
            && Wealth(w'', c) == BalanceOf(v.seed, c) + Granted(more, c) + Traded(v, w', more, c)
                                 - (BalanceOf(w''.lost, c) - BalanceOf(w'.lost, c))
  {
    hide Step, Enabled, Solvent, PaidOnce, Run, Allowed, Orderly, Wealth, BalanceOf;
    var w' := Run(v, w, es);
    ResetIsTheLastWord(v, w, es, r);
    assert IdsPublished(w');
    RunConserves(v, w', more, c);
    RunNeverOverdraws(v, w, es);
    LostOnlyGrows(v, w', more, c);
  }

  // ---------------------------------------------------------------- what an absolute write leaves

  lemma {:induction false} HeldNonNegative<K>(m: map<K, Order>, c: Coin)
    requires forall k | k in m :: m[k].held >= 0.0
    ensures Held(m, c) >= 0.0
    decreases |m|
  {
    if m != map[] {
      var k :| k in m;
      HeldWithout(m, k, c);
      HeldNonNegative(m - {k}, c);
    }
  }

  /** The coin a reset is about to write. */
  function NextCoin(v: Venue, w: World, r: Token): Coin
    requires Enabled(v, w, WriteCoin(r))
  {
    v.coins[w.resets[r].phase.next]
  }

  /** Whenever a reset writes a coin, in time or late, and whatever else is going on: until another
      write, the account is worth the seed and all it held outside its balance at the write, plus
      what it is granted and trades for, less what is dropped. */
  lemma WriteLeaves(v: Venue, w: World, r: Token, more: seq<Event>, c: Coin)
    requires Enabled(v, w, WriteCoin(r)) && IdsPublished(w) && c == NextCoin(v, w, r)
    requires Allowed(v, Step(v, w, WriteCoin(r)), more) && Conserving(more)
    ensures var w'' := Run(v, Step(v, w, WriteCoin(r)), more);
            Wealth(w'', c) == BalanceOf(v.seed, c) + Outside(w, c)
                              + Granted(more, c) + Traded(v, Step(v, w, WriteCoin(r)), more, c)
                              - (BalanceOf(w''.lost, c) - BalanceOf(w.lost, c))
  {
    var w' := Step(v, w, WriteCoin(r));
    assert Wealth(w', c) == BalanceOf(v.seed, c) + Outside(w, c) && w'.lost == w.lost;
    StepKeepsIds(v, w, WriteCoin(r));
    RunConserves(v, w', more, c);
  }

  /** However the run goes on, the account is worth no more than the seed, its grants and what it
      trades for from here on. */
  ghost predicate NoMint(v: Venue, w: World, c: Coin) {
    forall more | Allowed(v, w, more) && Conserving(more) ::
      Wealth(Run(v, w, more), c) <= BalanceOf(v.seed, c) + Granted(more, c) + Traded(v, w, more, c)
  }

  /** A reset's write mints nothing if and only if, at the write, nothing of the coin is held for the
      account outside its balance: by a book, by a request, or by the matcher. */
  lemma WriteMintsNothingIff(v: Venue, w: World, r: Token)
    requires Enabled(v, w, WriteCoin(r)) && IdsPublished(w) && Solvent(w)
    requires forall c | c in v.seed :: v.seed[c] >= 0.0
    ensures NoMint(v, Step(v, w, WriteCoin(r)), NextCoin(v, w, r)) <==> Outside(w, NextCoin(v, w, r)) == 0.0
  {
    var c, w' := NextCoin(v, w, r), Step(v, w, WriteCoin(r));
    HeldNonNegative(w.keys.rows, c);
    HeldNonNegative(w.placing, c);
    HeldNonNegative(w.refunding, c);
    HeldNonNegative(w.owed, c);
    StepKeepsSolvent(v, w, WriteCoin(r));
    Nothing(v, w');
    WriteLeaves(v, w, r, [], c);
    assert w'.lost == w.lost;
    hide Step, Enabled, Solvent, Run, Allowed, Wealth, Outside;
    if Outside(w, c) == 0.0 {
      forall more | Allowed(v, w', more) && Conserving(more)
        ensures Wealth(Run(v, w', more), c) <= BalanceOf(v.seed, c) + Granted(more, c) + Traded(v, w', more, c)
      {
        WriteLeaves(v, w, r, more, c);
        LostOnlyGrows(v, w', more, c);
      }
    } else {
      assert Conserving([]) && Granted([], c) == 0.0 && Traded(v, w', [], c) == 0.0;
    }
  }

  // ---------------------------------------------------------------- what the design does not cover

  const ONE_COIN: Venue := Venue([0], [0], map[0 := 10.0])

  /** One order of 5 resting, 5 in the balance, nothing running. */
  const START: World :=
    World(0, Keys(None, map[], 0, map[0 := 5.0], map[Slot(0, 0) := Order(0, 5.0)]),
          map[], map[], map[], map[], map[], {}, {0}, {}, map[], map[])

  lemma {:induction false} Extend(v: Venue, w: World, es: seq<Event>, e: Event)
    requires Allowed(v, w, es) && Enabled(v, Run(v, w, es), e)
    ensures Allowed(v, w, es + [e]) && Run(v, w, es + [e]) == Step(v, Run(v, w, es), e)
    decreases |es|
  {
    if es == [] {
      assert (es + [e])[1..] == [];
    } else {
      assert (es + [e])[1..] == es[1..] + [e];
      Extend(v, Step(v, w, es[0]), es[1..], e);
    }
  }

  lemma Nothing(v: Venue, w: World)
    ensures Allowed(v, w, []) && Run(v, w, []) == w
  {}

  lemma Then(v: Venue, start: World, es: seq<Event>, w: World, e: Event) returns (es': seq<Event>, w': World)
    requires Allowed(v, start, es) && Run(v, start, es) == w && Enabled(v, w, e)
    ensures Allowed(v, start, es') && Run(v, start, es') == w' == Step(v, w, e) && es' == es + [e]
  {
    es', w' := es + [e], Step(v, w, e);
    Extend(v, start, es, e);
  }

  // Single steps, spelled out where the runs below take them.

  lemma Registering(v: Venue, w: World, t: Token)
    requires t !in w.tokens && !Frozen(w.keys, w.now)
    ensures Enabled(v, w, Register(t, w.now))
    ensures var deadline := w.now + VALUE_FLIGHT_TTL_MS;
            Step(v, w, Register(t, w.now)) ==
            w.(keys := w.keys.(flights := LiveHash(w.keys, w.now)[t := deadline], flightsExpire := deadline),
               tokens := w.tokens + {t}, requests := w.requests[t := deadline])
  {}

  function Taken(w: World, t: Token, s: Slot): World
    requires s in w.keys.rows
  {
    w.(keys := w.keys.(rows := w.keys.rows - {s}), refunding := w.refunding[t := w.keys.rows[s]],
       claimed := w.claimed[t := s.id])
  }

  lemma Cancelling(v: Venue, w: World, t: Token, s: Slot)
    requires Idle(w, t) && s in w.keys.rows
    ensures Enabled(v, w, Cancel(t, s)) && Step(v, w, Cancel(t, s)) == Taken(w, t, s)
  {}

  lemma Closing(v: Venue, w: World, t: Token, s: Slot)
    requires Unused(w, t) && s in w.keys.rows
    ensures Enabled(v, w, Close(t, s)) && Step(v, w, Close(t, s)) == Taken(w.(tokens := w.tokens + {t}), t, s)
  {}

  function Credited(w: World, o: Order): World {
    w.(keys := w.keys.(balance := w.keys.balance[o.coin := BalanceOf(w.keys.balance, o.coin) + o.held]))
  }

  lemma Refunding(v: Venue, w: World, t: Token)
    requires t in w.refunding && t in w.claimed
    ensures Enabled(v, w, Refund(t))
    ensures Step(v, w, Refund(t)) ==
            Credited(w, w.refunding[t]).(refunding := w.refunding - {t}, claimed := w.claimed - {t},
                                         refunded := w.refunded + {w.claimed[t]})
  {}

  lemma Starting(v: Venue, w: World, r: Token)
    requires !Frozen(w.keys, w.now) && r !in w.tokens
    ensures Enabled(v, w, StartReset(r))
    ensures var x := w.now + MARGIN_FREEZE_TTL_MS;
            Step(v, w, StartReset(r)) ==
            w.(keys := w.keys.(freeze := Some(Freeze(r, x))), tokens := w.tokens + {r},
               resets := w.resets[r := Reset(Holding, x)])
  {}

  lemma ReadingClear(v: Venue, w: World, r: Token)
    requires r in w.resets && w.resets[r].phase.Holding? && LiveHash(w.keys, w.now) == map[] && v.books != []
    ensures Enabled(v, w, ReadFlights(r, w.now)) && Step(v, w, ReadFlights(r, w.now)) == At(w, r, Scanning(0))
  {
    assert LiveFlights(w.keys, w.now, w.now) == {};
  }

  lemma ScanningClear(v: Venue, w: World, r: Token, i: nat)
    requires r in w.resets && w.resets[r].phase == Scanning(i) && w.keys.rows == map[] && i < |v.books|
    ensures Enabled(v, w, ScanBook(r))
    ensures Step(v, w, ScanBook(r)) == At(w, r, if i + 1 < |v.books| then Scanning(i + 1) else Writing(0))
  {}

  lemma WritingNext(v: Venue, w: World, r: Token, i: nat)
    requires r in w.resets && w.resets[r].phase == Writing(i) && i < |v.coins|
    ensures Enabled(v, w, WriteCoin(r))
    ensures Step(v, w, WriteCoin(r)) ==
            At(w.(keys := w.keys.(balance := w.keys.balance[v.coins[i] := BalanceOf(v.seed, v.coins[i])])), r, Writing(i + 1))
  {}

  /** With no rows and no live flight, a reset that nothing interrupts gets to its writes. */
  lemma ResetGetsToWrite(v: Venue, start: World, es: seq<Event>, w: World, r: Token)
    returns (es': seq<Event>, w': World)
    requires Allowed(v, start, es) && Run(v, start, es) == w && |v.books| == 1
    requires w.keys.rows == map[] && LiveHash(w.keys, w.now) == map[] && !Frozen(w.keys, w.now) && r !in w.tokens
    ensures Allowed(v, start, es') && Run(v, start, es') == w'
    ensures es' == es + [StartReset(r), ReadFlights(r, w.now), ScanBook(r)]
    ensures var x := w.now + MARGIN_FREEZE_TTL_MS;
            w' == w.(keys := w.keys.(freeze := Some(Freeze(r, x))), tokens := w.tokens + {r},
                     resets := w.resets[r := Reset(Writing(0), x)])
  {
    hide Run, Allowed, Step, Enabled, Frozen;
    Starting(v, w, r);
    es', w' := Then(v, start, es, w, StartReset(r));
    ReadingClear(v, w', r);
    es', w' := Then(v, start, es', w', ReadFlights(r, w.now));
    ScanningClear(v, w', r, 0);
    es', w' := Then(v, start, es', w', ScanBook(r));
    assert w'.resets == w.resets[r := Reset(Writing(0), w.now + MARGIN_FREEZE_TTL_MS)];
  }

  /** Of a one-coin venue, to the end. */
  lemma ResetRunsThrough(start: World, es: seq<Event>, w: World, r: Token) returns (es': seq<Event>, w': World)
    requires Allowed(ONE_COIN, start, es) && Run(ONE_COIN, start, es) == w
    requires w.keys.rows == map[] && LiveHash(w.keys, w.now) == map[] && !Frozen(w.keys, w.now) && r !in w.tokens
    ensures Allowed(ONE_COIN, start, es') && Run(ONE_COIN, start, es') == w'
    ensures es' == es + [StartReset(r), ReadFlights(r, w.now), ScanBook(r), WriteCoin(r)]
    ensures w'.resets == w.resets[r := Reset(Writing(1), w.now + MARGIN_FREEZE_TTL_MS)]
    ensures w'.keys.balance == w.keys.balance[0 := 10.0]
    ensures w'.refunding == w.refunding && w'.claimed == w.claimed
  {
    hide Run, Allowed, Step, Enabled, Frozen;
    es', w' := ResetGetsToWrite(ONE_COIN, start, es, w, r);
    WritingNext(ONE_COIN, w', r, 0);
    es', w' := Then(ONE_COIN, start, es', w', WriteCoin(r));
  }

  /** A request that outlives its deadline: the cancel claims the order, the registry
      forgets it, a reset completes, and the refund lands on top of the seed. */
  lemma LateRefundMints() returns (es: seq<Event>)
    ensures AtRest(ONE_COIN, START) && Allowed(ONE_COIN, START, es)
    ensures forall e | e in es :: Quiet(e) && !e.Grant?
    ensures Run(ONE_COIN, START, es).resets == map[1 := Reset(Writing(1), 45000)]
    ensures BalanceOf(Run(ONE_COIN, START, es).keys.balance, 0) == 15.0
  {
    StartsAtRest();
    hide Run, Allowed, Step, Enabled, AtRest;
    var w;
    es, w := CancelDawdles();
    es, w := ResetRunsThrough(START, es, w, 1);
    Refunding(ONE_COIN, w, 0);
    es, w := Then(ONE_COIN, START, es, w, Refund(0));
  }

  lemma StartsAtRest()
    ensures AtRest(ONE_COIN, START)
  {}

  lemma CancelDawdles() returns (es: seq<Event>, w: World)
    ensures Allowed(ONE_COIN, START, es) && Run(ONE_COIN, START, es) == w
    ensures es == [Register(0, 0), Cancel(0, Slot(0, 0)), Tick(30000)]
    ensures w.now == 30000 && w.keys.rows == map[] && LiveHash(w.keys, w.now) == map[] && !Frozen(w.keys, w.now)
    ensures w.keys.balance == map[0 := 5.0] && w.resets == map[] && 1 !in w.tokens
    ensures w.refunding == map[0 := Order(0, 5.0)] && w.claimed == map[0 := 0]
  {
    hide Run, Allowed, Step, Enabled;
    Nothing(ONE_COIN, START);
    Registering(ONE_COIN, START, 0);
    es, w := Then(ONE_COIN, START, [], START, Register(0, 0));
    Cancelling(ONE_COIN, w, 0, Slot(0, 0));
    es, w := Then(ONE_COIN, START, es, w, Cancel(0, Slot(0, 0)));
    assert w.refunding == map[0 := Order(0, 5.0)] && w.keys.rows == map[];
    Ticking(ONE_COIN, w, 30000);
    es, w := Then(ONE_COIN, START, es, w, Tick(30000));
  }

  /** A reset that outlives its freeze: once the freeze has expired a debit slips between
      its checks and its writes, and the account keeps both the order and the seed. */
  lemma LateResetMints() returns (es: seq<Event>)
    ensures var w := START.(keys := START.keys.(rows := map[]));
            && AtRest(ONE_COIN, w) && Allowed(ONE_COIN, w, es)
            && (forall e | e in es :: Quiet(e) && !e.Grant?)
            && BalanceOf(Run(ONE_COIN, w, es).keys.balance, 0) == 10.0
            && Run(ONE_COIN, w, es).placing == map[1 := Order(0, 5.0)]
  {
    hide Run, Allowed, Step, Enabled;
    var v, start := ONE_COIN, START.(keys := START.keys.(rows := map[]));
    var w := start;
    Nothing(v, w);
    es, w := ResetGetsToWrite(v, start, [], w, 0);
    Ticking(v, w, 15000);
    es, w := Then(v, start, es, w, Tick(15000));
    Registering(v, w, 1);
    es, w := Then(v, start, es, w, Register(1, 15000));
    Debiting(v, w, 1, 0, 5.0);
    es, w := Then(v, start, es, w, Debit(1, 0, 5.0));
    WritingNext(v, w, 0, 0);
    es, w := Then(v, start, es, w, WriteCoin(0));
  }

  lemma Ticking(v: Venue, w: World, to: int)
    requires to >= w.now
    ensures Enabled(v, w, Tick(to)) && Step(v, w, Tick(to)) == w.(now := to)
  {}

  lemma Debiting(v: Venue, w: World, t: Token, c: Coin, amount: real)
    requires Idle(w, t) && !Frozen(w.keys, w.now) && 0.0 < amount <= BalanceOf(w.keys.balance, c)
    ensures Enabled(v, w, Debit(t, c, amount))
    ensures Step(v, w, Debit(t, c, amount)) == Credited(w, Order(c, -amount)).(placing := w.placing[t := Order(c, amount)])
  {}

  lemma Matched(v: Venue, w: World, k: Trade, s: Slot, due: Order)
    requires k !in w.owed && due.held >= 0.0
    ensures Enabled(v, w, Match(k, s, due))
    ensures Step(v, w, Match(k, s, due)) ==
            w.(keys := w.keys.(rows := w.keys.rows - {s}), owed := w.owed[k := due])
  {}

  lemma Paying(v: Venue, w: World, k: Trade)
    requires k in w.owed
    ensures Enabled(v, w, Settle(k)) && Step(v, w, Settle(k)) == Credited(w, w.owed[k]).(owed := w.owed - {k})
  {}

  lemma Reviving(v: Venue, w: World, k: Trade, s: Slot, rest: Order, due: Order)
    requires k !in w.owed && due.held >= 0.0 && s.book in v.books && s.id in w.published && rest.held > 0.0
    ensures Enabled(v, w, PutBack(k, s, rest, due))
    ensures Step(v, w, PutBack(k, s, rest, due)) ==
            w.(keys := w.keys.(rows := w.keys.rows[s := rest]), owed := w.owed[k := due])
  {}

  const TWO_COINS: Venue := Venue([0], [0, 1], map[0 := 10.0, 1 := 0.0])

  /** A sell of 5 of coin 1 resting, nothing running. */
  const SELLING: World := START.(keys := START.keys.(rows := map[Slot(0, 0) := Order(1, 5.0)]))

  /** The engine loop: between taking a sell out of the book and paying its proceeds, in the other
      coin, every check of the reset answers that the account is idle. */
  lemma SettlementMints() returns (es: seq<Event>)
    ensures AtRest(TWO_COINS, SELLING) && Allowed(TWO_COINS, SELLING, es)
    ensures forall e | e in es :: !e.Grant? && !e.Tick?
    ensures Run(TWO_COINS, SELLING, es).resets == map[0 := Reset(Writing(2), 15000)]
    ensures var b := Run(TWO_COINS, SELLING, es).keys.balance; BalanceOf(b, 0) == 15.0 && BalanceOf(b, 1) == 0.0
  {
    hide Run, Allowed, Step, Enabled;
    var v, w, due := TWO_COINS, SELLING, Order(0, 5.0);
    Nothing(v, w);
    Matched(v, w, 0, Slot(0, 0), due);
    es, w := Then(v, SELLING, [], w, Match(0, Slot(0, 0), due));
    assert w.keys.rows == map[];
    es, w := ResetGetsToWrite(v, SELLING, es, w, 0);
    WritingNext(v, w, 0, 0);
    es, w := Then(v, SELLING, es, w, WriteCoin(0));
    WritingNext(v, w, 0, 1);
    es, w := Then(v, SELLING, es, w, WriteCoin(0));
    Paying(v, w, 0);
    es, w := Then(v, SELLING, es, w, Settle(0));
  }

  /** An account closure: its claim is on no registry, so a reset runs through between the claim and
      the refund, with everything in time and the matcher quiet. */
  lemma ClosureMints() returns (es: seq<Event>)
    ensures AtRest(ONE_COIN, START) && Allowed(ONE_COIN, START, es)
    ensures forall e | e in es :: !Matching(e) && !e.Grant? && !e.Tick?
    ensures Run(ONE_COIN, START, es).resets == map[1 := Reset(Writing(1), 15000)]
    ensures BalanceOf(Run(ONE_COIN, START, es).keys.balance, 0) == 15.0
  {
    hide Run, Allowed, Step, Enabled;
    var v, w, s := ONE_COIN, START, Slot(0, 0);
    Nothing(v, w);
    Closing(v, w, 0, s);
    es, w := Then(v, START, [], w, Close(0, s));
    assert w.keys.rows == map[];
    es, w := ResetRunsThrough(START, es, w, 1);
    Refunding(v, w, 0);
    es, w := Then(v, START, es, w, Refund(0));
  }

  /** A put-back of an order that was cancelled while a part of it was filled: what was put back is
      cancelled and refunded on top. */
  lemma PutBackPaysTwice() returns (es: seq<Event>)
    ensures AtRest(ONE_COIN, START) && PaidOnce(START) && Allowed(ONE_COIN, START, es)
    ensures forall e | e in es :: !e.Grant? && !e.Settle? && !e.Tick?
    ensures !RefundsOnce(ONE_COIN, START, es)
    ensures BalanceOf(Run(ONE_COIN, START, es).keys.balance, 0) == 13.0
  {
    hide Run, Allowed, Step, Enabled, RefundsOnce;
    var v, w, s, rest := ONE_COIN, START, Slot(0, 0), Order(0, 3.0);
    Nothing(v, w);
    Registering(v, w, 0);
    es, w := Then(v, START, [], w, Register(0, 0));
    Cancelling(v, w, 0, s);
    es, w := Then(v, START, es, w, Cancel(0, s));
    Reviving(v, w, 0, s, rest, Order(1, 2.0));
    es, w := Then(v, START, es, w, PutBack(0, s, rest, Order(1, 2.0)));
    Refunding(v, w, 0);
    es, w := Then(v, START, es, w, Refund(0));
    Cancelling(v, w, 0, s);
    es, w := Then(v, START, es, w, Cancel(0, s));
    Refunding(v, w, 0);
    ghost var before := es;
    es, w := Then(v, START, es, w, Refund(0));
    LastRefundCounts(v, START, before, 0);
  }

  /** A refund of an order already refunded, at the end of a run. */
  lemma {:induction false} LastRefundCounts(v: Venue, w: World, es: seq<Event>, t: Token)
    requires Allowed(v, w, es) && Allowed(v, w, es + [Refund(t)]) && Enabled(v, Run(v, w, es), Refund(t))
    requires Run(v, w, es).claimed[t] in Run(v, w, es).refunded
    ensures !RefundsOnce(v, w, es + [Refund(t)])
    decreases |es|
  {
    if es == [] {
      assert es + [Refund(t)] == [Refund(t)];
    } else {
      assert (es + [Refund(t)])[1..] == es[1..] + [Refund(t)];
      hide Step, Enabled;
      LastRefundCounts(v, Step(v, w, es[0]), es[1..], t);
    }
  }

  // ---------------------------------------------------------------- what goes through

  lemma Publishing(v: Venue, w: World, t: Token, s: Slot)
    requires t in w.placing && s.book in v.books && s.id !in w.published
    ensures Enabled(v, w, Publish(t, s))
    ensures Step(v, w, Publish(t, s)) ==
            w.(keys := w.keys.(rows := w.keys.rows[s := w.placing[t]]), placing := w.placing - {t},
               published := w.published + {s.id})
  {}

  /** A request that holds nothing deregisters, and nothing else changes. */
  lemma Finishing(v: Venue, w: World, t: Token)
    requires Idle(w, t)
    ensures Enabled(v, w, Finish(t))
    ensures Step(v, w, Finish(t)) ==
            w.(keys := w.keys.(flights := w.keys.flights - {t}), requests := w.requests - {t},
               placing := w.placing - {t}, refunding := w.refunding - {t}, claimed := w.claimed - {t})
  {}

  lemma Ending(v: Venue, w: World, r: Token)
    requires r in w.resets && w.keys.freeze.Some? && w.now < w.keys.freeze.value.expires
    ensures Enabled(v, w, EndReset(r))
    ensures Step(v, w, EndReset(r)) ==
            w.(keys := w.keys.(freeze := if w.keys.freeze.value.token == r then None else w.keys.freeze),
               resets := w.resets - {r})
  {}

  /** The way back: when a reset ends, however it went, the account is unfrozen, and the next request
      that asks for a covered amount gets exactly that. */
  lemma EndedResetLetsOrdersIn(v: Venue, w: World, r: Token, t: Token, c: Coin, amount: real)
    returns (es: seq<Event>, w': World)
    requires Exclusive(v, w) && r in w.resets && Unused(w, t) && t !in w.placing && t !in w.requests
    requires 0.0 < amount <= BalanceOf(w.keys.balance, c)
    ensures es == [EndReset(r), Register(t, w.now), Debit(t, c, amount)]
    ensures Allowed(v, w, es) && Run(v, w, es) == w'
    ensures w'.keys.freeze == None && r !in w'.resets
    ensures w'.placing == w.placing[t := Order(c, amount)]
    ensures w'.keys.balance == w.keys.balance[c := BalanceOf(w.keys.balance, c) - amount]
  {
    hide Run, Allowed, Step, Enabled;
    assert w.keys.freeze == Some(Freeze(r, w.resets[r].expires)) && w.now < w.resets[r].expires;
    hide Exclusive;
    Nothing(v, w);
    Ending(v, w, r);
    es, w' := Then(v, w, [], w, EndReset(r));
    Registering(v, w', t);
    es, w' := Then(v, w, es, w', Register(t, w.now));
    Debiting(v, w', t, c, amount);
    es, w' := Then(v, w, es, w', Debit(t, c, amount));
  }

  /** While a request runs, a reset that reads the registry refuses. */
  lemma BusyIsRefused(v: Venue, w: World, r: Token, t: Token, at: int)
    requires Exclusive(v, w) && t in w.requests && Enabled(v, w, ReadFlights(r, at))
    ensures Step(v, w, ReadFlights(r, at)).resets[r].phase == Refusing
  {
    assert t in LiveFlights(w.keys, w.now, at);
  }

  /** A request that dies leaves its flight: until the deadline it registered, half a minute after
      it began, a reset that reads the registry refuses all the same. */
  lemma DeadRequestStillCounts(v: Venue, w: World, r: Token, t: Token, at: int)
    requires Exclusive(v, w) && t in w.requests && Enabled(v, w, ReadFlights(r, at))
    ensures Enabled(v, w, Crash(t))
    ensures var d := Step(v, w, Crash(t));
            t !in d.requests && Enabled(v, d, ReadFlights(r, at)) && Step(v, d, ReadFlights(r, at)).resets[r].phase == Refusing
  {
    assert t in LiveFlights(w.keys, w.now, at);
    assert LiveFlights(Step(v, w, Crash(t)).keys, w.now, at) == LiveFlights(w.keys, w.now, at);
  }

  /** A reset that dies leaves its freeze: nobody registers until it expires, and from then on
      anybody does, for half a minute. */
  lemma DeadResetStillFreezes(v: Venue, w: World, r: Token, t: Token, to: int)
    requires Exclusive(v, w) && r in w.resets && w.now <= to && t !in w.tokens && t !in w.requests
    ensures var d := Step(v, Step(v, w, CrashReset(r)), Tick(to));
            && r !in d.resets && Enabled(v, d, Register(t, to))
            && var g := Step(v, d, Register(t, to));
               && (t in g.requests <==> w.resets[r].expires <= to)
               && (t in g.requests ==> && g.requests[t] == g.keys.flightsExpire == to + 30000
                                       && t in g.keys.flights && g.keys.flights[t] == to + 30000)
  {
    NobodyElseResets(w, r);
    assert w.keys.freeze == Some(Freeze(r, w.resets[r].expires));
  }

  /** With an order in the book it looks at, a reset refuses. */
  lemma RestingIsRefused(v: Venue, w: World, r: Token, s: Slot)
    requires Enabled(v, w, ScanBook(r)) && s in w.keys.rows && s.book == v.books[w.resets[r].phase.next]
    ensures Step(v, w, ScanBook(r)).resets[r].phase == Refusing
  {}

  /** An idle account's reset goes through: with no live flight, no resting order and no freeze, there
      is a run of the reset alone that writes every coin of the venue, touches no other, and gives
      the freeze back. */
  lemma IdleResetSucceeds(v: Venue, w: World, r: Token) returns (es: seq<Event>, w': World)
    requires v.books != [] && w.keys.rows == map[] && LiveHash(w.keys, w.now) == map[] && !Frozen(w.keys, w.now)
    requires r !in w.tokens && r !in w.resets
    ensures Allowed(v, w, es) && Run(v, w, es) == w'
    ensures forall c | c in v.coins :: c in w'.keys.balance && w'.keys.balance[c] == BalanceOf(v.seed, c)
    ensures forall c | c !in v.coins :: BalanceOf(w'.keys.balance, c) == BalanceOf(w.keys.balance, c)
    ensures w' == w.(keys := w'.keys, tokens := w.tokens + {r}) && w'.keys == w.keys.(freeze := None, balance := w'.keys.balance)
  {
    hide Run, Allowed, Step, Enabled, Frozen, BalanceOf;
    var x := w.now + MARGIN_FREEZE_TTL_MS;
    es, w' := ReadyToScan(v, w, r);
    es, w' := ScanToTheEnd(v, w, es, w', r);
    es, w' := WriteToTheEnd(v, w, es, w', r);
    Ending(v, w', r);
    es, w' := Then(v, w, es, w', EndReset(r));
    assert w'.resets == w.resets;
  }

  lemma ReadyToScan(v: Venue, w: World, r: Token) returns (es: seq<Event>, w': World)
    requires v.books != [] && LiveHash(w.keys, w.now) == map[] && !Frozen(w.keys, w.now) && r !in w.tokens
    ensures Allowed(v, w, es) && Run(v, w, es) == w'
    ensures var x := w.now + MARGIN_FREEZE_TTL_MS;
            w' == w.(keys := w.keys.(freeze := Some(Freeze(r, x))), tokens := w.tokens + {r},
                     resets := w.resets[r := Reset(Scanning(0), x)])
  {
    hide Run, Allowed, Step, Enabled, Frozen;
    Nothing(v, w);
    Starting(v, w, r);
    es, w' := Then(v, w, [], w, StartReset(r));
    ReadingClear(v, w', r);
    es, w' := Then(v, w, es, w', ReadFlights(r, w.now));
    assert w'.resets == w.resets[r := Reset(Scanning(0), w.now + MARGIN_FREEZE_TTL_MS)];
  }

  lemma ScanToTheEnd(v: Venue, start: World, es: seq<Event>, w: World, r: Token) returns (es': seq<Event>, w': World)
    requires Allowed(v, start, es) && Run(v, start, es) == w && v.books != []
    requires r in w.resets && w.resets[r].phase == Scanning(0) && w.keys.rows == map[]
    ensures Allowed(v, start, es') && Run(v, start, es') == w' == At(w, r, Writing(0))
  {
    hide Run, Allowed, Step, Enabled;
    es', w' := es, w;
    assert w == At(w, r, Scanning(0)) by {
      assert w.resets[r := w.resets[r].(phase := Scanning(0))] == w.resets;
    }
    for i := 0 to |v.books|
      invariant Allowed(v, start, es') && Run(v, start, es') == w'
      invariant w' == At(w, r, if i < |v.books| then Scanning(i) else Writing(0))
    {
      ScanningClear(v, w', r, i);
      es', w' := Then(v, start, es', w', ScanBook(r));
      AtTwice(w, r, Scanning(i), if i + 1 < |v.books| then Scanning(i + 1) else Writing(0));
    }
  }

  lemma AtTwice(w: World, r: Token, p: Phase, q: Phase)
    requires r in w.resets
    ensures At(At(w, r, p), r, q) == At(w, r, q)
  {
    assert w.resets[r := w.resets[r].(phase := p)][r := w.resets[r].(phase := q)] == w.resets[r := w.resets[r].(phase := q)];
  }

  lemma WriteToTheEnd(v: Venue, start: World, es: seq<Event>, w: World, r: Token)
    returns (es': seq<Event>, w': World)
    requires Allowed(v, start, es) && Run(v, start, es) == w
    requires r in w.resets && w.resets[r].phase == Writing(0)
    ensures Allowed(v, start, es') && Run(v, start, es') == w'
    ensures w' == w.(keys := w.keys.(balance := w'.keys.balance), resets := w'.resets)
    ensures w'.resets == w.resets[r := w.resets[r].(phase := Writing(|v.coins|))]
    ensures forall c | c in v.coins :: c in w'.keys.balance && w'.keys.balance[c] == BalanceOf(v.seed, c)
    ensures forall c | c !in v.coins :: BalanceOf(w'.keys.balance, c) == BalanceOf(w.keys.balance, c)
  {
    hide Run, Allowed, Step, Enabled;
    es', w' := es, w;
    assert w.resets[r := w.resets[r].(phase := Writing(0))] == w.resets;
    for i := 0 to |v.coins|
      invariant Allowed(v, start, es') && Run(v, start, es') == w'
      invariant w' == w.(keys := w.keys.(balance := w'.keys.balance), resets := w'.resets)
      invariant w'.resets == w.resets[r := w.resets[r].(phase := Writing(i))]
      invariant forall c | c in v.coins[..i] :: c in w'.keys.balance && w'.keys.balance[c] == BalanceOf(v.seed, c)
      invariant forall c | c !in v.coins[..i] :: BalanceOf(w'.keys.balance, c) == BalanceOf(w.keys.balance, c)
    {
      WritingNext(v, w', r, i);
      assert v.coins[..i + 1] == v.coins[..i] + [v.coins[i]];
      es', w' := Then(v, start, es', w', WriteCoin(r));
      AtTwice(w, r, Writing(i), Writing(i + 1));
    }
    assert v.coins[..|v.coins|] == v.coins;
  }

  /** Placing and cancelling undo each other: a covered order of an unfrozen account is debited and
      rests in its book; cancelled, it is gone and the balance is what it was. */
  lemma PlaceThenCancelRestores(v: Venue, w: World, t: Token, u: Token, c: Coin, amount: real, s: Slot)
    returns (placed: seq<Event>, w1: World, undone: seq<Event>, w2: World)
    requires !Frozen(w.keys, w.now) && Clear(w, t) && Clear(w, u) && t != u
    requires 0.0 < amount <= BalanceOf(w.keys.balance, c) && s.book in v.books && s.id !in w.published
    requires s !in w.keys.rows
    ensures placed == [Register(t, w.now), Debit(t, c, amount), Publish(t, s), Finish(t)]
    ensures Allowed(v, w, placed) && Run(v, w, placed) == w1
    ensures w1.keys.balance == w.keys.balance[c := BalanceOf(w.keys.balance, c) - amount]
    ensures w1.keys.rows == w.keys.rows[s := Order(c, amount)] && w1.requests == w.requests && w1.placing == w.placing
    ensures undone == [Register(u, w.now), Cancel(u, s), Refund(u), Finish(u)]
    ensures Allowed(v, w1, undone) && Run(v, w1, undone) == w2
    ensures w2.keys.balance == w.keys.balance[c := BalanceOf(w.keys.balance, c)] && w2.keys.rows == w.keys.rows
    ensures w2.requests == w.requests && w2.placing == w.placing && w2.refunding == w.refunding
    ensures w2.refunded == w.refunded + {s.id} && w2.lost == w.lost
  {
    placed, w1 := Place(v, w, t, c, amount, s);
    hide Run, Allowed, Step, Enabled, BalanceOf;
    undone, w2 := Undo(v, w1, u, s);
    WholeAgain(w.keys.balance, c, amount);
    assert w1.keys.rows - {s} == w.keys.rows;
  }

  lemma Undo(v: Venue, w: World, u: Token, s: Slot) returns (es: seq<Event>, w': World)
    requires !Frozen(w.keys, w.now) && Clear(w, u) && s in w.keys.rows
    ensures es == [Register(u, w.now), Cancel(u, s), Refund(u), Finish(u)]
    ensures Allowed(v, w, es) && Run(v, w, es) == w'
    ensures var o := w.keys.rows[s];
            w'.keys.balance == w.keys.balance[o.coin := BalanceOf(w.keys.balance, o.coin) + o.held]
    ensures w'.keys.rows == w.keys.rows - {s}
    ensures w' == w.(keys := w'.keys, tokens := w.tokens + {u}, refunded := w.refunded + {s.id})
  {
    es, w' := ClaimRow(v, w, u, s);
    hide Run, Allowed, Step, Enabled, BalanceOf, Clear;
    assert u !in w.refunding && u !in w.claimed && u !in w.placing by {
      ClearHolds(w, u);
    }
    es, w' := RefundAndLeave(v, w, es, w', u);
    assert w.refunding[u := w.keys.rows[s]] - {u} == w.refunding && w.claimed[u := s.id] - {u} == w.claimed;
    assert w.placing - {u} == w.placing;
  }

  lemma ClearHolds(w: World, t: Token)
    requires Clear(w, t)
    ensures t !in w.refunding && t !in w.claimed && t !in w.placing
  {}

  lemma RefundAndLeave(v: Venue, start: World, es: seq<Event>, w: World, u: Token) returns (es': seq<Event>, w': World)
    requires Allowed(v, start, es) && Run(v, start, es) == w
    requires u in w.refunding && u in w.claimed && u in w.requests && u !in w.placing
    ensures es' == es + [Refund(u), Finish(u)] && Allowed(v, start, es') && Run(v, start, es') == w'
    ensures var o := w.refunding[u];
            w'.keys.balance == w.keys.balance[o.coin := BalanceOf(w.keys.balance, o.coin) + o.held]
    ensures w'.keys.rows == w.keys.rows
    ensures w' == w.(keys := w'.keys, requests := w.requests - {u}, placing := w.placing - {u},
                     refunding := w.refunding - {u}, claimed := w.claimed - {u},
                     refunded := w.refunded + {w.claimed[u]})
  {
    hide Run, Allowed, Step, Enabled, BalanceOf;
    Refunding(v, w, u);
    es', w' := Then(v, start, es, w, Refund(u));
    Finishing(v, w', u);
    es', w' := Then(v, start, es', w', Finish(u));
    assert w.refunding - {u} - {u} == w.refunding - {u} && w.claimed - {u} - {u} == w.claimed - {u};
  }

  lemma ClaimRow(v: Venue, w: World, u: Token, s: Slot) returns (es: seq<Event>, w': World)
    requires !Frozen(w.keys, w.now) && Clear(w, u) && s in w.keys.rows
    ensures es == [Register(u, w.now), Cancel(u, s)] && Allowed(v, w, es) && Run(v, w, es) == w'
    ensures w'.keys == w.keys.(rows := w.keys.rows - {s}, flights := w'.keys.flights, flightsExpire := w'.keys.flightsExpire)
    ensures w' == w.(keys := w'.keys, tokens := w.tokens + {u}, requests := w'.requests,
                     refunding := w.refunding[u := w.keys.rows[s]], claimed := w.claimed[u := s.id])
    ensures u in w'.requests && w'.requests - {u} == w.requests
  {
    hide Run, Allowed, Step, Enabled, LiveHash;
    Nothing(v, w);
    Registering(v, w, u);
    es, w' := Then(v, w, [], w, Register(u, w.now));
    Cancelling(v, w', u, s);
    es, w' := Then(v, w, es, w', Cancel(u, s));
  }

  /** A token nobody has anything to do with. */
  predicate Clear(w: World, t: Token) { Unused(w, t) && t !in w.requests && t !in w.placing }

  lemma WholeAgain(balance: map<Coin, real>, c: Coin, amount: real)
    ensures var less := balance[c := BalanceOf(balance, c) - amount];
            less[c := BalanceOf(less, c) + amount] == balance[c := BalanceOf(balance, c)]
  {}

  lemma Place(v: Venue, w: World, t: Token, c: Coin, amount: real, s: Slot) returns (es: seq<Event>, w': World)
    requires !Frozen(w.keys, w.now) && Clear(w, t)
    requires 0.0 < amount <= BalanceOf(w.keys.balance, c) && s.book in v.books && s.id !in w.published
    ensures es == [Register(t, w.now), Debit(t, c, amount), Publish(t, s), Finish(t)]
    ensures Allowed(v, w, es) && Run(v, w, es) == w'
    ensures w'.keys.balance == w.keys.balance[c := BalanceOf(w.keys.balance, c) - amount]
    ensures w'.keys.rows == w.keys.rows[s := Order(c, amount)] && w'.keys.freeze == w.keys.freeze
    ensures w' == w.(keys := w'.keys, tokens := w.tokens + {t}, published := w.published + {s.id})
  {
    hide Run, Allowed, Step, Enabled;
    Nothing(v, w);
    Registering(v, w, t);
    es, w' := Then(v, w, [], w, Register(t, w.now));
    Debiting(v, w', t, c, amount);
    es, w' := Then(v, w, es, w', Debit(t, c, amount));
    Publishing(v, w', t, s);
    es, w' := Then(v, w, es, w', Publish(t, s));
    Finishing(v, w', t);
    es, w' := Then(v, w, es, w', Finish(t));
    assert w'.requests == w.requests && w'.placing == w.placing && w'.refunding == w.refunding
        && w'.claimed == w.claimed;
  }
}

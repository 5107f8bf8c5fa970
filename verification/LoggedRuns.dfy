/** The two views of one set of scripts. The exclusion machine moves balances and keeps no
    stream; the ledger keeps the stream of one field. Every run of the machine, resets, requests
    and matcher together, is a run of the logged scripts on each coin, so the stream replays to
    the balance the machine ends with. */
module LoggedRuns {
  import opened Options
  import K = AccountKeys
  import L = Ledger
  import X = ResetExclusion

  /** The stored balance of a coin, as the ledger has it. */
  function Field(balance: map<K.Coin, real>, c: K.Coin): Option<real> {
    if c in balance then Some(balance[c]) else None
  }

  /** The reservation of the exclusion machine is the checked, logged debit, with the stream left
      out. */
  lemma ReserveIsTheDebit(k: K.Keys, now: int, c: K.Coin, amount: real, stream: seq<L.Entry>, reason: string)
    ensures var (k', ok) := K.Reserve(k, now, c, amount);
            var (a, reply) := L.Do(L.Account(Field(k.balance, c), stream), L.Debit(amount, K.Frozen(k, now), reason));
            && a.balance == Field(k'.balance, c) && (ok <==> reply.Answer?)
            && k' == k.(balance := k'.balance) && forall d | d != c :: Field(k'.balance, d) == Field(k.balance, d)
  {}

  /** The signed move is the logged one; a move of nothing leaves the same balance. */
  lemma ApplyIsTheMove(k: K.Keys, c: K.Coin, delta: real, stream: seq<L.Entry>, reason: string)
    ensures var k' := K.Apply(k, c, delta);
            var a := L.Do(L.Account(Field(k.balance, c), stream), L.Apply(delta, reason)).0;
            && L.ValueOf(a) == K.BalanceOf(k'.balance, c) && (delta != 0.0 ==> a.balance == Field(k'.balance, c))
            && k' == k.(balance := k'.balance) && forall d | d != c :: Field(k'.balance, d) == Field(k.balance, d)
  {}

  /** The scripts a step runs on the field of coin `c`. */
  function Scripts(v: X.Venue, w: X.World, e: X.Event, c: K.Coin): seq<L.Op>
    requires X.Enabled(v, w, e)
  {
    match e
    case Debit(_, coin, amount) => if coin == c then [L.Debit(amount, K.Frozen(w.keys, w.now), "order")] else []
    case Refund(t) => if w.refunding[t].coin == c then [L.Apply(w.refunding[t].held, "cancel")] else []
    case Grant(_, coin, amount) => if coin == c then [L.Credit(amount, "credit")] else []
    case Settle(k) => if w.owed[k].coin == c then [L.Apply(w.owed[k].held, "settlement")] else []
    case WriteCoin(r) => if X.NextCoin(v, w, r) == c then [L.Set(K.BalanceOf(v.seed, c), "faucet_reset")] else []
    case _ => []
  }

  function ScriptsOf(v: X.Venue, w: X.World, es: seq<X.Event>, c: K.Coin): seq<L.Op>
    requires X.Allowed(v, w, es)
    decreases |es|
  {
    if es == [] then [] else Scripts(v, w, es[0], c) + ScriptsOf(v, X.Step(v, w, es[0]), es[1..], c)
  }

  lemma RunOne(a: L.Account, op: L.Op)
    ensures L.Run(a, [op]) == L.Do(a, op).0
  {
    assert [op][1..] == [];
  }

  lemma {:induction false} RunMore(a: L.Account, x: seq<L.Op>, y: seq<L.Op>)
    ensures L.Run(a, x + y) == L.Run(L.Run(a, x), y)
    decreases |x|
  {
    if x == [] {
      assert x + y == y;
    } else {
      assert (x + y)[1..] == x[1..] + y;
      RunMore(L.Do(a, x[0]).0, x[1..], y);
    }
  }

  predicate Moves(e: X.Event) { e.Debit? || e.Refund? || e.Grant? || e.Settle? || e.WriteCoin? }

  lemma OthersMoveNothing(v: X.Venue, w: X.World, e: X.Event)
    requires X.Enabled(v, w, e) && !Moves(e)
    ensures X.Step(v, w, e).keys.balance == w.keys.balance
  {
    hide K.LiveFlights, K.LiveHash, K.Frozen, X.AddLost;
  }

  lemma MoveIsLogged(v: X.Venue, w: X.World, e: X.Event, c: K.Coin, a: L.Account)
    requires X.Enabled(v, w, e) && Moves(e) && L.ValueOf(a) == K.BalanceOf(w.keys.balance, c)
    ensures var ops := Scripts(v, w, e, c);
            && |ops| <= 1
            && K.BalanceOf(X.Step(v, w, e).keys.balance, c) ==
               L.ValueOf(if ops == [] then a else L.Do(a, ops[0]).0)
  {
    hide K.Frozen;
  }

  lemma StepIsLogged(v: X.Venue, w: X.World, e: X.Event, c: K.Coin, a: L.Account)
    requires X.Enabled(v, w, e) && L.ValueOf(a) == K.BalanceOf(w.keys.balance, c)
    ensures L.ValueOf(L.Run(a, Scripts(v, w, e, c))) == K.BalanceOf(X.Step(v, w, e).keys.balance, c)
  {
    RunNone(a);
    if Moves(e) {
      MoveIsLogged(v, w, e, c, a);
      var ops := Scripts(v, w, e, c);
      if ops != [] {
        RunOne(a, ops[0]);
        assert ops == [ops[0]];
      }
      hide *;
    } else {
      OthersMoveNothing(v, w, e);
      assert Scripts(v, w, e, c) == [];
    }
  }

  /** Every run of the exclusion machine is, on each coin, a run of the logged scripts: the ledger
      ends at the machine's balance, and every surviving suffix of the stream replays to it. */
  lemma {:induction false} RunIsLogged(v: X.Venue, w: X.World, es: seq<X.Event>, c: K.Coin, a: L.Account, cut: nat)
    requires X.Allowed(v, w, es) && L.Honest(a) && L.ValueOf(a) == K.BalanceOf(w.keys.balance, c)
    ensures var b := L.Run(a, ScriptsOf(v, w, es, c));
            && L.ValueOf(b) == K.BalanceOf(X.Run(v, w, es).keys.balance, c)
            && L.Honest(b)
            && (cut < |b.stream| ==> L.Replay(b.stream[cut..]) == K.BalanceOf(X.Run(v, w, es).keys.balance, c))
  {
    ValueIsLogged(v, w, es, c, a);
    L.RunKeepsLedger(a, ScriptsOf(v, w, es, c), cut);
  }

  lemma {:induction false} ValueIsLogged(v: X.Venue, w: X.World, es: seq<X.Event>, c: K.Coin, a: L.Account)
    requires X.Allowed(v, w, es) && L.ValueOf(a) == K.BalanceOf(w.keys.balance, c)
    ensures L.ValueOf(L.Run(a, ScriptsOf(v, w, es, c))) == K.BalanceOf(X.Run(v, w, es).keys.balance, c)
    decreases |es|
  {
    hide L.Run, L.ValueOf, K.BalanceOf, X.Step, X.Enabled, Scripts;
    if es == [] {
      RunNone(a);
    } else {
      var x, w' := Scripts(v, w, es[0], c), X.Step(v, w, es[0]);
      StepIsLogged(v, w, es[0], c, a);
      ValueIsLogged(v, w', es[1..], c, L.Run(a, x));
      RunMore(a, x, ScriptsOf(v, w', es[1..], c));
    }
  }

  lemma RunNone(a: L.Account)
    ensures L.Run(a, []) == a
  {}
}

/** The logged scripts: every movement of a balance appends the entry that describes it in
    the same step, so the stream and the balance never part. Amounts are exact reals. */
module Ledger {
  import opened Options

  datatype Field = Field(user: nat, id: nat)

  datatype Entry = Entry(delta: real, before: real, after: real, reason: string)

  /** One field: the stored balance, if any, and its stream, oldest entry first. */
  datatype Account = Account(balance: Option<real>, stream: seq<Entry>)

  function ValueOf(a: Account): real { if a.balance.Some? then a.balance.value else 0.0 }

  datatype Op =
    | Credit(amount: real, reason: string)
    | Debit(amount: real, frozen: bool, reason: string)
    | Apply(delta: real, reason: string)
    | Set(target: real, reason: string)
    | Trim(dropped: nat)     // the server cuts the oldest entries, never the newest

  datatype Reply = Refused | IsFrozen | Answer(balance: real)

  function Moved(a: Account, after: real, delta: real, reason: string): Account {
    Account(Some(after), a.stream + [Entry(delta, ValueOf(a), after, reason)])
  }

  function Do(a: Account, op: Op): (Account, Reply) {
    var v := ValueOf(a);
    match op
    case Credit(amount, reason) =>
      if amount <= 0.0 then (a, Refused) else (Moved(a, v + amount, amount, reason), Answer(v + amount))
    case Debit(amount, frozen, reason) =>
      if amount <= 0.0 then (a, Refused)
      else if frozen then (a, IsFrozen)
      else if v < amount then (a, Refused)
      else (Moved(a, v - amount, -amount, reason), Answer(v - amount))
    case Apply(delta, reason) =>
      if delta == 0.0 then (a, Answer(v)) else (Moved(a, v + delta, delta, reason), Answer(v + delta))
    case Set(target, reason) =>
      if target == v then (a.(balance := Some(target)), Answer(target))
      else (Moved(a, target, target - v, reason), Answer(target))
    case Trim(dropped) =>
      if dropped < |a.stream| then (a.(stream := a.stream[dropped..]), Answer(v)) else (a, Answer(v))
  }

  function Run(a: Account, ops: seq<Op>): Account
    decreases |ops|
  {
    if ops == [] then a else Run(Do(a, ops[0]).0, ops[1..])
  }

  // ---------------------------------------------------------------- replay

  function Deltas(stream: seq<Entry>): real {
    if stream == [] then 0.0 else stream[0].delta + Deltas(stream[1..])
  }

  /** The balance the entries amount to: the oldest `before`, and every delta since. */
  function Replay(stream: seq<Entry>): real {
    if stream == [] then 0.0 else stream[0].before + Deltas(stream)
  }

  predicate Chained(stream: seq<Entry>) {
    && (forall i | 0 <= i < |stream| :: stream[i].after == stream[i].before + stream[i].delta)
    && (forall i | 0 < i < |stream| :: stream[i].before == stream[i - 1].after)
  }

  /** The stream is a chain that ends at the balance. An empty one says nothing. */
  predicate Honest(a: Account) {
    Chained(a.stream) && (a.stream != [] ==> a.stream[|a.stream| - 1].after == ValueOf(a))
  }

  lemma {:induction false} ChainReplays(stream: seq<Entry>)
    requires Chained(stream) && stream != []
    ensures Replay(stream) == stream[|stream| - 1].after
  {
    if |stream| == 1 {
      assert Deltas(stream[1..]) == 0.0;
    } else {
      assert forall i | 0 <= i < |stream[1..]| :: stream[1..][i] == stream[i + 1];
      ChainReplays(stream[1..]);
      assert stream[1].before == stream[0].after;
    }
  }

  lemma MovingKeepsHonest(a: Account, after: real, delta: real, reason: string)
    requires Honest(a) && after == ValueOf(a) + delta
    ensures Honest(Moved(a, after, delta, reason))
  {}

  lemma TrimmingKeepsHonest(a: Account, dropped: nat)
    requires Honest(a) && dropped < |a.stream|
    ensures Honest(a.(stream := a.stream[dropped..]))
  {
    var rest := a.stream[dropped..];
    assert forall i | 0 <= i < |rest| :: rest[i] == a.stream[dropped + i];
  }

  lemma OpKeepsHonest(a: Account, op: Op)
    requires Honest(a)
    ensures Honest(Do(a, op).0)
  {
    hide Honest;
    var v := ValueOf(a);
    match op {
      case Credit(amount, reason) => MovingKeepsHonest(a, v + amount, amount, reason);
      case Debit(amount, _, reason) => MovingKeepsHonest(a, v - amount, -amount, reason);
      case Apply(delta, reason) => MovingKeepsHonest(a, v + delta, delta, reason);
      case Set(target, reason) => {
        MovingKeepsHonest(a, target, target - v, reason);
        RewritingKeepsHonest(a);
      }
      case Trim(dropped) => if dropped < |a.stream| { TrimmingKeepsHonest(a, dropped); }
    }
  }

  lemma RewritingKeepsHonest(a: Account)
    requires Honest(a)
    ensures Honest(a.(balance := Some(ValueOf(a))))
  {}

  /** The ledger is the balance: from any balance that predates the stream, over every run of
      the logged scripts and any trimming, the surviving entries chain, and every suffix of
      them still replays to the live balance. */
  lemma {:induction false} RunKeepsLedger(a: Account, ops: seq<Op>, cut: nat)
    requires Honest(a)
    ensures var b := Run(a, ops);
            Honest(b) && (cut < |b.stream| ==> Replay(b.stream[cut..]) == ValueOf(b))
    decreases |ops|
  {
    if ops == [] {
      if cut < |a.stream| {
        var rest := a.stream[cut..];
        assert forall i | 0 <= i < |rest| :: rest[i] == a.stream[cut + i];
        ChainReplays(rest);
      }
    } else {
      OpKeepsHonest(a, ops[0]);
      RunKeepsLedger(Do(a, ops[0]).0, ops[1..], cut);
    }
  }

  /** An entry is written exactly when the balance moves, and its delta is the movement. */
  lemma LogsWhatMoves(a: Account, op: Op)
    requires !op.Trim?
    ensures var b := Do(a, op).0;
            && (b.stream == a.stream <==> ValueOf(b) == ValueOf(a))
            && (ValueOf(b) != ValueOf(a) ==>
                  |b.stream| == |a.stream| + 1 && b.stream[..|a.stream|] == a.stream
                  && b.stream[|a.stream|].delta == ValueOf(b) - ValueOf(a))
  {
    var b := Do(a, op).0;
    if |b.stream| > |a.stream| {
      assert b.stream == a.stream + [b.stream[|a.stream|]];
    }
  }

  /** Trimming loses the oldest entries, as many as it is told, and what is left replays alike. */
  lemma TrimLosesOldest(a: Account, dropped: nat)
    requires Honest(a) && dropped < |a.stream|
    ensures var b := Do(a, Trim(dropped)).0;
            && b.balance == a.balance && |b.stream| == |a.stream| - dropped
            && b.stream[|b.stream| - 1] == a.stream[|a.stream| - 1]
            && Replay(b.stream) == Replay(a.stream)
  {
    TrimmingKeepsHonest(a, dropped);
    ChainReplays(a.stream);
    ChainReplays(a.stream[dropped..]);
  }

  predicate Checked(op: Op) { op.Credit? || op.Debit? || op.Trim? || (op.Set? && op.target >= 0.0) }

  /** The checked scripts never overdraw, over any run. */
  lemma {:induction false} CheckedRunNeverOverdraws(a: Account, ops: seq<Op>)
    requires ValueOf(a) >= 0.0 && forall op | op in ops :: Checked(op)
    ensures ValueOf(Run(a, ops)) >= 0.0
    decreases |ops|
  {
    if ops != [] {
      assert Checked(ops[0]);
      CheckedRunNeverOverdraws(Do(a, ops[0]).0, ops[1..]);
    }
  }

  // ---------------------------------------------------------------- reconcile and rebuild

  const RECONCILE_TOLERANCE: real := 0.00000001

  /** None when there is nothing to check against. */
  function Reconcile(a: Account): Option<bool> {
    if a.stream == [] then None
    else
      var drift := ValueOf(a) - Replay(a.stream);
      Some(-RECONCILE_TOLERANCE <= drift <= RECONCILE_TOLERANCE)
  }

  /** Overwrites the balance from a replay, unless there is nothing to replay. */
  function Rebuild(a: Account): Account {
    if a.stream == [] then a else a.(balance := Some(Replay(a.stream)))
  }

  /** Over every run the check never raises an alarm and a rebuild changes no balance. */
  lemma RunReconciles(a: Account, ops: seq<Op>)
    requires Honest(a)
    ensures var b := Run(a, ops); Reconcile(b) != Some(false) && ValueOf(Rebuild(b)) == ValueOf(b)
  {
    RunKeepsLedger(a, ops, 0);
    var b := Run(a, ops);
    assert b.stream[0..] == b.stream;
  }

  /** The older, unlogged reservation: same checks, no entry. */
  function ReserveUnlogged(a: Account, amount: real, frozen: bool): Account {
    if frozen || amount <= 0.0 || ValueOf(a) < amount then a else a.(balance := Some(ValueOf(a) - amount))
  }

  /** Nothing calls it; this is why nothing may. It goes unnoticed exactly when it was refused or
      too small to see, and a rebuild would pay it back. */
  lemma UnloggedReserveIsADrift(a: Account, amount: real, frozen: bool)
    requires Honest(a) && a.stream != []
    ensures var b := ReserveUnlogged(a, amount, frozen);
            && (Reconcile(b) == Some(true) <==>
                  frozen || amount <= 0.00000001 || ValueOf(a) < amount)
            && ValueOf(Rebuild(b)) == ValueOf(a)
  {
    ChainReplays(a.stream);
  }

  /** Setting a balance to what it is only makes sure it is there. */
  lemma SetTwice(a: Account, target: real, reason: string)
    ensures Do(Do(a, Set(target, reason)).0, Set(target, reason)).0 == Do(a, Set(target, reason)).0
  {}

  // ---------------------------------------------------------------- the store

  class Store {
    var balances: map<Field, real>
    var streams: map<Field, seq<Entry>>
    var locked: map<Field, real>
    var inOrder: map<Field, real>

    function AccountOf(f: Field): Account
      reads this
    {
      Account(if f in balances then Some(balances[f]) else None, if f in streams then streams[f] else [])
    }

    /** What HGET finds, or nothing. */
    function Stored(f: Field): real
      reads this
    {
      if f in balances then balances[f] else 0.0
    }

    /** The field has gone from one balance to another, and its stream has one entry more: that
        movement. */
    static predicate Follows(a: Account, b: Account, before: real, after: real, reason: string) {
      && b.balance == Some(after)
      && b.stream == a.stream + [Entry(after - before, before, after, reason)]
    }

    /** HINCRBYFLOAT and XADD, in one script. */
    method Log(f: Field, before: real, after: real, delta: real, reason: string)
      requires before == ValueOf(AccountOf(f))
      modifies this`balances, this`streams
      ensures AccountOf(f) == Moved(old(AccountOf(f)), after, delta, reason)
      ensures AccountOf(f) == Account(Some(after), old(AccountOf(f)).stream + [Entry(delta, before, after, reason)])
      ensures forall g | g != f :: AccountOf(g) == old(AccountOf(g))
    {
      var stream := if f in streams then streams[f] else [];
      balances := balances[f := after];
      streams := streams[f := stream + [Entry(delta, before, after, reason)]];
    }

    method MoveBalanceLogged(f: Field, amount: real, debit: bool, frozen: bool, reason: string)
      returns (reply: Reply)
      modifies this`balances, this`streams
      ensures (AccountOf(f), reply) ==
              Do(old(AccountOf(f)), if debit then Debit(amount, frozen, reason) else Credit(amount, reason))
      ensures reply.IsFrozen? <==> amount > 0.0 && debit && frozen
      ensures reply.Refused? <==> amount <= 0.0 || (debit && !frozen && old(Stored(f)) < amount)
      ensures !reply.Answer? ==> AccountOf(f) == old(AccountOf(f))
      ensures reply.Answer? ==> && reply.balance == old(Stored(f)) + (if debit then -amount else amount)
                                && Follows(old(AccountOf(f)), AccountOf(f), old(Stored(f)), reply.balance, reason)
      ensures forall g | g != f :: AccountOf(g) == old(AccountOf(g))
    {
      if amount <= 0.0 {
        return Refused;
      }
      if debit && frozen {
        return IsFrozen;
      }
      var before := if f in balances then balances[f] else 0.0;
      if debit && before < amount {
        return Refused;
      }
      var delta := if debit then -amount else amount;
      Log(f, before, before + delta, delta, reason);
      reply := Answer(before + delta);
    }

    method MoveBalanceSigned(f: Field, delta: real, reason: string) returns (reply: Reply)
      modifies this`balances, this`streams
      ensures (AccountOf(f), reply) == Do(old(AccountOf(f)), Apply(delta, reason))
      ensures reply == Answer(old(Stored(f)) + delta)
      ensures delta == 0.0 ==> AccountOf(f) == old(AccountOf(f))
      ensures delta != 0.0 ==> Follows(old(AccountOf(f)), AccountOf(f), old(Stored(f)), old(Stored(f)) + delta, reason)
      ensures forall g | g != f :: AccountOf(g) == old(AccountOf(g))
    {
      var before := if f in balances then balances[f] else 0.0;
      if delta != 0.0 {
        Log(f, before, before + delta, delta, reason);
      }
      reply := Answer(before + delta);
    }

    method SetBalanceLogged(f: Field, target: real, reason: string) returns (reply: Reply)
      modifies this`balances, this`streams
      ensures (AccountOf(f), reply) == Do(old(AccountOf(f)), Set(target, reason))
      ensures reply == Answer(target)
      ensures target == old(Stored(f)) ==> AccountOf(f) == Account(Some(target), old(AccountOf(f)).stream)
      ensures target != old(Stored(f)) ==> Follows(old(AccountOf(f)), AccountOf(f), old(Stored(f)), target, reason)
      ensures forall g | g != f :: AccountOf(g) == old(AccountOf(g))
    {
      var before := if f in balances then balances[f] else 0.0;
      if target == before {
        balances := balances[f := target];
      } else {
        Log(f, before, target, target - before, reason);
      }
      reply := Answer(target);
    }

    /** The replay as a loop over the entries read back. */
    method ReplayBalance(f: Field) returns (balance: real)
      ensures balance == Replay(AccountOf(f).stream)
    {
      var entries := if f in streams then streams[f] else [];
      if |entries| == 0 {
        return 0.0;
      }
      balance := entries[0].before;
      assert entries[0..] == entries;
      for i := 0 to |entries|
        invariant balance + Deltas(entries[i..]) == Replay(entries)
      {
        assert entries[i..][1..] == entries[i + 1..];
        balance := balance + entries[i].delta;
      }
    }

    /** Moves the engine field, then sets each mirror field to the balance it ended at. Every one of
        these movements is an entry in the stream of its own field. */
    method AdjustSpotBalance(engine: Field, mirrors: seq<Field>, amount: real, reason: string) returns (ok: bool)
      requires engine !in mirrors
      modifies this`balances, this`streams
      ensures var op := if amount < 0.0 then Debit(-amount, false, reason) else Credit(amount, reason);
              var (after, reply) := Do(old(AccountOf(engine)), op);
              && AccountOf(engine) == after
              && (ok <==> reply.Answer?)
              && (ok ==> ValueOf(after) == reply.balance == ValueOf(old(AccountOf(engine))) + amount)
              && (ok ==> forall f | f in mirrors ::
                           AccountOf(f) == Do(old(AccountOf(f)), Set(reply.balance, "mirror_resync")).0)
              && (forall f | f != engine && (f !in mirrors || !ok) :: AccountOf(f) == old(AccountOf(f)))
    {
      var moved := MoveBalanceLogged(engine, if amount < 0.0 then -amount else amount, amount < 0.0, false, reason);
      ok := moved.Answer?;
      if !ok {
        return;
      }
      ghost var after := AccountOf(engine);
      hide Follows, Do;
      for i := 0 to |mirrors|
        invariant AccountOf(engine) == after
        invariant forall f | f in mirrors[..i] ::
                    AccountOf(f) == Do(old(AccountOf(f)), Set(moved.balance, "mirror_resync")).0
        invariant forall f | f != engine && f !in mirrors[..i] :: AccountOf(f) == old(AccountOf(f))
      {
        assert forall f :: f in mirrors[..i + 1] <==> f in mirrors[..i] || f == mirrors[i];
        SetTwice(old(AccountOf(mirrors[i])), moved.balance, "mirror_resync");
        var _ := SetBalanceLogged(mirrors[i], moved.balance, "mirror_resync");
      }
      assert mirrors[..|mirrors|] == mirrors;
    }
  }
}

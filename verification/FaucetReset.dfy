/** What a reset writes once nothing can interleave with it, field by field: the signup seed
    is its fixed point. Fields belong to one user each; a user's coins are reachable under
    several ids. */
module FaucetReset {
  import opened Ledger
  import opened Options

  type Coin = string

  /** An entry of the user's wallet document. */
  datatype Asset = Asset(coin: Coin, currencyId: Option<nat>, assetId: Option<nat>)

  const FAUCET_COINS: set<Coin> := {"USD"}
  const FAUCET_AMOUNT: real := 1000.0

  function IdsOfAsset(a: Asset): set<nat> {
    (if a.currencyId.Some? then {a.currencyId.value} else {}) + (if a.assetId.Some? then {a.assetId.value} else {})
  }

  /** Every id under which `assets` lists coin `c`. */
  function IdsOf(assets: seq<Asset>, c: Coin): set<nat> {
    if assets == [] then {}
    else IdsOf(assets[..|assets| - 1], c) +
         if assets[|assets| - 1].coin == c then IdsOfAsset(assets[|assets| - 1]) else {}
  }

  method CollectUserCoins(assets: seq<Asset>) returns (byCoin: map<Coin, set<nat>>)
    ensures forall c :: c in byCoin <==> c != "" && exists i :: 0 <= i < |assets| && assets[i].coin == c
    ensures forall c | c in byCoin :: byCoin[c] == IdsOf(assets, c)
  {
    byCoin := map[];
    for n := 0 to |assets|
      invariant forall c :: c in byCoin <==> c != "" && exists i :: 0 <= i < n && assets[i].coin == c
      invariant forall c | c in byCoin :: byCoin[c] == IdsOf(assets[..n], c)
      invariant forall c | c !in byCoin && c != "" :: IdsOf(assets[..n], c) == {}
    {
      var a := assets[n];
      assert assets[..n + 1][..n] == assets[..n];
      if a.coin != "" {
        var entry := if a.coin in byCoin then byCoin[a.coin] else {};
        byCoin := byCoin[a.coin := entry + IdsOfAsset(a)];
      }
    }
    assert assets[..|assets|] == assets;
  }

  function FieldsOf(user: nat, ids: set<nat>): set<Field> { set id | id in ids :: Field(user, id) }

  /** The fields of the given coins. */
  function FieldsOfCoins(user: nat, byCoin: map<Coin, set<nat>>, coins: set<Coin>): set<Field> {
    set c, id | c in coins && c in byCoin && id in byCoin[c] :: Field(user, id)
  }

  function Collected(user: nat, byCoin: map<Coin, set<nat>>): set<Field> {
    FieldsOfCoins(user, byCoin, byCoin.Keys)
  }

  /** The collected fields whose spot balance goes to zero. */
  function Zeroed(user: nat, byCoin: map<Coin, set<nat>>): set<Field> {
    FieldsOfCoins(user, byCoin, byCoin.Keys - FAUCET_COINS)
  }

  /** The engine fields of the faucet currencies that resolved. */
  function Engines(user: nat, currencies: seq<nat>): set<Field> {
    set i | 0 <= i < |currencies| :: Field(user, currencies[i])
  }

  /** What an absolute write of a reset is logged as. */
  const ZERO: string := "faucet_reset_zero"
  const SEED: string := "faucet_reset"

  function SetTo(a: Account, v: real, reason: string): Account { Do(a, Set(v, reason)).0 }

  lemma SetToTwice(a: Account, v: real, reason: string)
    ensures ValueOf(SetTo(a, v, reason)) == v && SetTo(SetTo(a, v, reason), v, reason) == SetTo(a, v, reason)
  {}

  /** One account after a reset. */
  function ResetOne(a: Account, zeroed: bool, engine: bool): Account {
    var z := if zeroed then SetTo(a, 0.0, ZERO) else a;
    if engine then SetTo(z, FAUCET_AMOUNT, SEED) else z
  }

  // ---------------------------------------------------------------- the writes

  method SetFields(store: Store, fields: set<Field>, v: real, reason: string)
    modifies store`balances, store`streams
    ensures forall f :: store.AccountOf(f) ==
                        if f in fields then SetTo(old(store.AccountOf(f)), v, reason) else old(store.AccountOf(f))
  {
    var todo := fields;
    while todo != {}
      invariant todo <= fields
      invariant forall f :: store.AccountOf(f) ==
                            if f in fields - todo then SetTo(old(store.AccountOf(f)), v, reason) else old(store.AccountOf(f))
      decreases todo
    {
      var f :| f in todo;
      todo := todo - {f};
      var _ := store.SetBalanceLogged(f, v, reason);
    }
  }

  /** The plain hset of a zero into a lock ledger. */
  function WithZeros(ledger: map<Field, real>, fields: set<Field>): (after: map<Field, real>)
    ensures Zeroes(ledger, after, fields)
  {
    ledger + map f | f in fields :: 0.0
  }

  /** These fields are there and zero; every other is as it was. */
  predicate Zeroes(before: map<Field, real>, after: map<Field, real>, fields: set<Field>) {
    && (forall f | f in fields :: f in after && after[f] == 0.0)
    && (forall f | f in before && f !in fields :: f in after && after[f] == before[f])
    && (forall f | f in after :: f in before || f in fields)
  }

  method ZeroOtherBalances(store: Store, user: nat, byCoin: map<Coin, set<nat>>)
    modifies store
    ensures forall f :: store.AccountOf(f) ==
                        if f in Zeroed(user, byCoin) then SetTo(old(store.AccountOf(f)), 0.0, ZERO)
                        else old(store.AccountOf(f))
    ensures store.locked == WithZeros(old(store.locked), Collected(user, byCoin))
    ensures store.inOrder == WithZeros(old(store.inOrder), Collected(user, byCoin))
  {
    hide FieldsOfCoins, WithZeros, FieldsOf, Zeroes;
    var todo := byCoin.Keys;
    ghost var done: set<Field>, zeroed: set<Field> := {}, {};
    NoCoinsYet(user, byCoin, store.locked);
    NoCoinsYet(user, byCoin, store.inOrder);
    while todo != {}
      invariant todo <= byCoin.Keys
      invariant done == FieldsOfCoins(user, byCoin, byCoin.Keys - todo)
      invariant zeroed == FieldsOfCoins(user, byCoin, byCoin.Keys - todo - FAUCET_COINS)
      invariant store.locked == WithZeros(old(store.locked), done)
      invariant store.inOrder == WithZeros(old(store.inOrder), done)
      invariant forall f :: store.AccountOf(f) ==
                            if f in zeroed then SetTo(old(store.AccountOf(f)), 0.0, ZERO) else old(store.AccountOf(f))
      decreases todo
    {
      var c :| c in todo;
      ghost var fields := FieldsOf(user, byCoin[c]);
      ghost var more := if c in FAUCET_COINS then zeroed else zeroed + fields;
      OneMoreCoin(user, byCoin, todo, c);
      MoreZeros(old(store.locked), done, fields);
      MoreZeros(old(store.inOrder), done, fields);
      ZeroCoin(store, FieldsOf(user, byCoin[c]), c in FAUCET_COINS);
      forall f ensures store.AccountOf(f) ==
                       if f in more then SetTo(old(store.AccountOf(f)), 0.0, ZERO) else old(store.AccountOf(f)) {
        SetToTwice(old(store.AccountOf(f)), 0.0, ZERO);
      }
      todo, done, zeroed := todo - {c}, done + fields, more;
    }
    assert byCoin.Keys - {} == byCoin.Keys;
  }

  lemma NoCoinsYet(user: nat, byCoin: map<Coin, set<nat>>, ledger: map<Field, real>)
    ensures FieldsOfCoins(user, byCoin, byCoin.Keys - byCoin.Keys) == {}
    ensures FieldsOfCoins(user, byCoin, byCoin.Keys - byCoin.Keys - FAUCET_COINS) == {}
    ensures WithZeros(ledger, {}) == ledger
  {}

  lemma MoreZeros(ledger: map<Field, real>, a: set<Field>, b: set<Field>)
    ensures WithZeros(WithZeros(ledger, a), b) == WithZeros(ledger, a + b)
  {}

  method ZeroCoin(store: Store, fields: set<Field>, isFaucet: bool)
    modifies store
    ensures store.locked == WithZeros(old(store.locked), fields)
    ensures store.inOrder == WithZeros(old(store.inOrder), fields)
    ensures forall f :: store.AccountOf(f) ==
                        if f in fields && !isFaucet then SetTo(old(store.AccountOf(f)), 0.0, ZERO)
                        else old(store.AccountOf(f))
  {
    store.locked, store.inOrder := WithZeros(store.locked, fields), WithZeros(store.inOrder, fields);
    if !isFaucet {
      SetFields(store, fields, 0.0, ZERO);
    }
  }

  lemma OneMoreCoin(user: nat, byCoin: map<Coin, set<nat>>, todo: set<Coin>, c: Coin)
    requires c in todo && todo <= byCoin.Keys
    ensures FieldsOfCoins(user, byCoin, byCoin.Keys - (todo - {c}))
            == FieldsOfCoins(user, byCoin, byCoin.Keys - todo) + FieldsOf(user, byCoin[c])
    ensures FieldsOfCoins(user, byCoin, byCoin.Keys - (todo - {c}) - FAUCET_COINS)
            == FieldsOfCoins(user, byCoin, byCoin.Keys - todo - FAUCET_COINS) +
               if c in FAUCET_COINS then {} else FieldsOf(user, byCoin[c])
  {}

  /** The mutating half of the reset. With no faucet currency it refuses before it writes. */
  method ResetBalances(store: Store, user: nat, assets: seq<Asset>, currencies: seq<nat>)
    returns (ok: bool, ghost zeroed: set<Field>, ghost collected: set<Field>)
    modifies store
    ensures ok <==> currencies != []
    ensures !ok ==> unchanged(store)
    ensures forall f | f in collected :: f.user == user
    ensures zeroed <= collected
    ensures forall f :: f in collected <==> f.user == user && Lists(assets, f.id, {})
    ensures forall f :: f in zeroed <==> f.user == user && Lists(assets, f.id, {"USD"})
    ensures ok ==> forall f :: store.AccountOf(f) ==
                     ResetOne(old(store.AccountOf(f)), f in zeroed, f.user == user && f.id in currencies)
    ensures ok ==> Zeroes(old(store.locked), store.locked, collected)
    ensures ok ==> Zeroes(old(store.inOrder), store.inOrder, collected)
  {
    hide Zeroes, WithZeros, FieldsOfCoins;
    var byCoin := CollectUserCoins(assets);
    collected, zeroed := Collected(user, byCoin), Zeroed(user, byCoin);
    CollectedAreListed(user, assets, byCoin);
    ok := |currencies| > 0;
    if ok {
      ZeroOtherBalances(store, user, byCoin);
      SetFields(store, Engines(user, currencies), FAUCET_AMOUNT, SEED);
      EnginesAre(user, currencies);
    }
  }

  lemma EnginesAre(user: nat, currencies: seq<nat>)
    ensures forall f :: f in Engines(user, currencies) <==> f.user == user && f.id in currencies
  {}

  /** Some asset of a named coin outside `except` lists the id. */
  predicate Lists(assets: seq<Asset>, id: nat, except: set<Coin>) {
    exists i :: 0 <= i < |assets| && assets[i].coin != "" && assets[i].coin !in except
                && (assets[i].currencyId == Some(id) || assets[i].assetId == Some(id))
  }

  lemma {:induction false} ListedIds(assets: seq<Asset>, c: Coin, id: nat)
    ensures id in IdsOf(assets, c) <==> exists i :: 0 <= i < |assets| && assets[i].coin == c && id in IdsOfAsset(assets[i])
  {
    if assets != [] {
      var init, last := assets[..|assets| - 1], assets[|assets| - 1];
      ListedIds(init, c, id);
      assert forall i | 0 <= i < |init| :: init[i] == assets[i];
    }
  }

  lemma CollectedIsListed(user: nat, assets: seq<Asset>, byCoin: map<Coin, set<nat>>, except: set<Coin>, f: Field)
    requires forall c :: c in byCoin <==> c != "" && exists i :: 0 <= i < |assets| && assets[i].coin == c
    requires forall c | c in byCoin :: byCoin[c] == IdsOf(assets, c)
    ensures f in FieldsOfCoins(user, byCoin, byCoin.Keys - except) <==> f.user == user && Lists(assets, f.id, except)
  {
    hide IdsOf, IdsOfAsset;
    if f in FieldsOfCoins(user, byCoin, byCoin.Keys - except) {
      var c :| c in byCoin && c !in except && f.id in byCoin[c];
      ListedIds(assets, c, f.id);
      var i :| 0 <= i < |assets| && assets[i].coin == c && f.id in IdsOfAsset(assets[i]);
      AssetLists(assets[i], f.id);
    }
    if f.user == user && Lists(assets, f.id, except) {
      var i :| 0 <= i < |assets| && assets[i].coin != "" && assets[i].coin !in except
            && (assets[i].currencyId == Some(f.id) || assets[i].assetId == Some(f.id));
      AssetLists(assets[i], f.id);
      ListedIds(assets, assets[i].coin, f.id);
      assert f.id in byCoin[assets[i].coin];
    }
  }

  lemma AssetLists(a: Asset, id: nat)
    ensures id in IdsOfAsset(a) <==> a.currencyId == Some(id) || a.assetId == Some(id)
  {}

  lemma FewerCoins(user: nat, byCoin: map<Coin, set<nat>>)
    ensures FieldsOfCoins(user, byCoin, byCoin.Keys - FAUCET_COINS) <= FieldsOfCoins(user, byCoin, byCoin.Keys)
  {}

  lemma CollectedAreListed(user: nat, assets: seq<Asset>, byCoin: map<Coin, set<nat>>)
    requires forall c :: c in byCoin <==> c != "" && exists i :: 0 <= i < |assets| && assets[i].coin == c
    requires forall c | c in byCoin :: byCoin[c] == IdsOf(assets, c)
    ensures forall f :: f in Collected(user, byCoin) <==> f.user == user && Lists(assets, f.id, {})
    ensures forall f :: f in Zeroed(user, byCoin) <==> f.user == user && Lists(assets, f.id, FAUCET_COINS)
    ensures Zeroed(user, byCoin) <= Collected(user, byCoin)
  {
    hide FieldsOfCoins, Lists, IdsOf;
    forall except: set<Coin>, f: Field
      ensures f in FieldsOfCoins(user, byCoin, byCoin.Keys - except) <==> f.user == user && Lists(assets, f.id, except)
    {
      CollectedIsListed(user, assets, byCoin, except, f);
    }
    assert byCoin.Keys - {} == byCoin.Keys;
    FewerCoins(user, byCoin);
  }

  // ---------------------------------------------------------------- the fixed point

  /** After a reset: the seed in every faucet engine field, zero in every other collected
      coin's field, everything else as it was; and the ledger still replays to it. */
  lemma ResetReachesSeed(a: Account, zeroed: bool, engine: bool)
    requires Honest(a)
    ensures var b := ResetOne(a, zeroed, engine);
            && ValueOf(b) == (if engine then 1000.0 else if zeroed then 0.0 else ValueOf(a))
            && (!engine && !zeroed ==> b == a)
            && Honest(b) && (b.stream != [] ==> Replay(b.stream) == ValueOf(b))
  {
    var z := if zeroed then SetTo(a, 0.0, ZERO) else a;
    var b := ResetOne(a, zeroed, engine);
    if zeroed {
      OpKeepsHonest(a, Set(0.0, ZERO));
    }
    if engine {
      OpKeepsHonest(z, Set(FAUCET_AMOUNT, SEED));
    }
    if b.stream != [] {
      ChainReplays(b.stream);
    }
  }

  /** A field the reset moves gets one entry, which names the reset and carries the movement. */
  lemma ResetIsLogged(a: Account, zeroed: bool, engine: bool)
    requires zeroed != engine
    ensures var target, b := if engine then 1000.0 else 0.0, ResetOne(a, zeroed, engine);
            b.stream == a.stream + if ValueOf(a) == target then []
                                   else [Entry(target - ValueOf(a), ValueOf(a), target,
                                               if engine then "faucet_reset" else "faucet_reset_zero")]
  {}

  /** A second reset changes nothing and logs nothing, exactly when the ids of the faucet
      coin and of the other coins are distinct; aliased, it logs two movements that cancel. */
  lemma ResetIsIdempotent(a: Account, zeroed: bool, engine: bool)
    ensures ValueOf(ResetOne(ResetOne(a, zeroed, engine), zeroed, engine)) == ValueOf(ResetOne(a, zeroed, engine))
    ensures ResetOne(ResetOne(a, zeroed, engine), zeroed, engine) == ResetOne(a, zeroed, engine)
            <==> !(zeroed && engine)
  {
    var b := ResetOne(a, zeroed, engine);
    var bb := ResetOne(b, zeroed, engine);
    if zeroed && engine {
      assert |bb.stream| == |b.stream| + 2;
    } else if zeroed {
      SetToTwice(a, 0.0, ZERO);
    } else if engine {
      SetToTwice(a, FAUCET_AMOUNT, SEED);
    }
  }

  /** A faucet coin's other id is collected, so its lock ledgers are cleared, but its spot
      balance is neither zeroed nor set: only the engine field is. */
  lemma MirrorKeepsItsBalance(user: nat, currency: nat, mirror: nat, a: Account)
    requires mirror != currency
    ensures var assets, f := [Asset("USD", Some(currency), Some(mirror))], Field(user, mirror);
            && Lists(assets, f.id, {}) && !Lists(assets, f.id, {"USD"})
            && ResetOne(a, Lists(assets, f.id, {"USD"}), f in Engines(user, [currency])) == a
  {
    var assets := [Asset("USD", Some(currency), Some(mirror))];
    assert assets[0].assetId == Some(mirror);
    assert Lists(assets, mirror, {});
  }
}

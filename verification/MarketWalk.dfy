/** The market walk of the fill canary: a probe of a given quote notional eats the
    opposite side of the book, best price first. The walk is proved optimal, independent
    of the order the book is listed in, and its price impact is monotone.

    The proofs share one idea. For a reference price k, every level has a gain: what one
    unit bought (sold) there is worth beyond k. Summed over a book the gains bound what
    any allocation can achieve, and at the walk's marginal price the walk attains it. */
module MarketWalk {
  import opened Options

  datatype Side = Buy | Sell

  /** A row of the open-order hash, as the walk reads it. A missing side or status
      (`None`) is accepted as it stands. */
  datatype Resting = Resting(side: Option<Side>, open: Option<bool>, price: real, quantity: real)

  datatype Level = Level(price: real, qty: real)

  datatype Verdict = Verdict(
    fillable: bool, probeNotional: real, filledQty: real, filledNotional: real, avgPrice: real,
    bestPrice: Option<real>, levelsConsumed: nat, restingLevels: nat, availableNotional: real)

  const TOLERANCE: real := 0.000000001

  function Min(a: real, b: real): real { if a <= b then a else b }

  function Max(a: real, b: real): real { if a >= b then a else b }

  /** Product and quotient by name, so that a proof can set their arithmetic aside. */
  function Times(a: real, b: real): real { a * b }

  function Over(a: real, b: real): real
    requires b > 0.0
  {
    a / b
  }

  function Opposite(side: Side): Side { if side.Buy? then Sell else Buy }

  /** Price `p` is at least as good as `q` for a taker on `side`. */
  predicate AsGood(side: Side, p: real, q: real) { if side.Buy? then p <= q else p >= q }

  predicate Usable(o: Resting, want: Side) {
    && (o.side.None? || o.side.value == want)
    && (o.open.None? || o.open.value)
    && o.price > 0.0
    && o.quantity > 0.0
  }

  function UsableLevels(orders: seq<Resting>, want: Side): (r: seq<Level>)
    ensures Positive(r)
  {
    if orders == [] then []
    else (if Usable(orders[0], want) then [Level(orders[0].price, orders[0].quantity)] else [])
         + UsableLevels(orders[1..], want)
  }

  predicate Positive(levels: seq<Level>) {
    forall i | 0 <= i < |levels| :: levels[i].price > 0.0 && levels[i].qty > 0.0
  }

  predicate BestFirst(side: Side, levels: seq<Level>) {
    forall i, j | 0 <= i < j < |levels| :: AsGood(side, levels[i].price, levels[j].price)
  }

  /** Price priority, ties kept in listing order. */
  function Insert(side: Side, l: Level, levels: seq<Level>): (r: seq<Level>)
    requires BestFirst(side, levels)
    ensures BestFirst(side, r)
    ensures multiset(r) == multiset(levels) + multiset{l}
  {
    if levels == [] || AsGood(side, l.price, levels[0].price) then
      [l] + levels
    else
      var rest := Insert(side, l, levels[1..]);
      InsertStep(side, l, levels, rest);
      [levels[0]] + rest
  }

  lemma InsertStep(side: Side, l: Level, levels: seq<Level>, rest: seq<Level>)
    requires levels != [] && BestFirst(side, levels) && !AsGood(side, l.price, levels[0].price)
    requires BestFirst(side, rest) && multiset(rest) == multiset(levels[1..]) + multiset{l}
    ensures BestFirst(side, [levels[0]] + rest)
    ensures multiset([levels[0]] + rest) == multiset(levels) + multiset{l}
  {
    assert levels == [levels[0]] + levels[1..];
    forall i | 0 <= i < |rest| ensures AsGood(side, levels[0].price, rest[i].price) {
      assert rest[i] in multiset(rest);
      if rest[i] != l {
        assert rest[i] in levels[1..];
      }
    }
  }

  function Sorted(side: Side, levels: seq<Level>): (r: seq<Level>)
    ensures BestFirst(side, r)
    ensures multiset(r) == multiset(levels)
  {
    if levels == [] then []
    else
      assert levels == [levels[0]] + levels[1..];
      Insert(side, levels[0], Sorted(side, levels[1..]))
  }

  // ---------------------------------------------------------------- sums over a book

  /** The book valued at `g(price)` per unit of quantity. */
  function Worth(levels: seq<Level>, g: real -> real): real {
    if levels == [] then 0.0 else Times(levels[0].qty, g(levels[0].price)) + Worth(levels[1..], g)
  }

  function One(): real -> real { p => 1.0 }

  function Itself(): real -> real { p => p }

  /** What a unit at price p is worth beyond the reference price k. */
  function Gain(side: Side, k: real): real -> real {
    p => Max(0.0, if side.Buy? then k - p else p - k)
  }

  function Qty(levels: seq<Level>): real { Worth(levels, One()) }

  function Notional(levels: seq<Level>): real { Worth(levels, Itself()) }

  /** Where the head of `a` sits in a permutation `b` of it. */
  lemma Without<T>(a: seq<T>, b: seq<T>) returns (j: nat)
    requires multiset(a) == multiset(b) && a != []
    ensures j < |b| && b[j] == a[0]
    ensures multiset(a[1..]) == multiset(b[..j] + b[j + 1..])
  {
    assert a == [a[0]] + a[1..];
    assert a[0] in multiset(b);
    j :| 0 <= j < |b| && b[j] == a[0];
    assert b == b[..j] + [b[j]] + b[j + 1..];
    assert multiset(b) == multiset(b[..j] + b[j + 1..]) + multiset{b[j]};
    assert multiset(a) == multiset{a[0]} + multiset(a[1..]);
    assert multiset(a[1..]) == multiset(a) - multiset{a[0]};
  }

  lemma {:induction false} WorthAppend(a: seq<Level>, b: seq<Level>, g: real -> real)
    ensures Worth(a + b, g) == Worth(a, g) + Worth(b, g)
  {
    hide Times, Over;
    if a == [] {
      assert a + b == b;
    } else {
      assert (a + b)[1..] == a[1..] + b;
      WorthAppend(a[1..], b, g);
    }
  }

  lemma {:induction false} WorthOfPermutation(a: seq<Level>, b: seq<Level>, g: real -> real)
    requires multiset(a) == multiset(b)
    ensures Worth(a, g) == Worth(b, g)
  {
    hide Times, Over;
    if a == [] {
      assert |multiset(b)| == 0;
    } else {
      var j := Without(a, b);
      var tail := [b[j]] + b[j + 1..];
      assert b == b[..j] + tail && tail[1..] == b[j + 1..];
      WorthOfPermutation(a[1..], b[..j] + b[j + 1..], g);
      WorthAppend(b[..j], tail, g);
      WorthAppend(b[..j], b[j + 1..], g);
    }
  }

  lemma {:induction false} WorthNonNegative(levels: seq<Level>, g: real -> real)
    requires Positive(levels)
    requires forall p | p > 0.0 :: g(p) >= 0.0
    ensures Worth(levels, g) >= 0.0
  {
    hide Times, Over;
    if levels != [] {
      assert g(levels[0].price) >= 0.0;
      Product(levels[0].qty, g(levels[0].price));
      WorthNonNegative(levels[1..], g);
    }
  }

  lemma {:induction false} NothingGained(side: Side, levels: seq<Level>, k: real)
    requires forall i | 0 <= i < |levels| :: AsGood(side, k, levels[i].price)
    ensures Worth(levels, Gain(side, k)) == 0.0
  {
    if levels != [] {
      NothingGained(side, levels[1..], k);
    }
  }

  // ---------------------------------------------------------------- the walk

  datatype Fill = Fill(qty: real, notional: real, consumed: nat)

  function Rejoined(done: Fill, rest: Fill): Fill {
    Fill(done.qty + rest.qty, done.notional + rest.notional, done.consumed + rest.consumed)
  }

  /** A level is eaten whole, or the probe ends in it. */
  function Walk(levels: seq<Level>, n: real): Fill
    requires Positive(levels)
  {
    if levels == [] || n <= 0.0 then Fill(0.0, 0.0, 0)
    else
      var l := levels[0];
      if Times(l.qty, l.price) <= n then
        Rejoined(Fill(l.qty, Times(l.qty, l.price), 1), Walk(levels[1..], n - Times(l.qty, l.price)))
      else Fill(Over(n, l.price), n, 1)
  }

  /** The smaller of the level and what the rest of the probe can pay for. */
  lemma TakeOne(l: Level, n: real)
    requires l.price > 0.0 && l.qty > 0.0 && n > 0.0
    ensures Over(n, l.price) > 0.0 && Times(Over(n, l.price), l.price) == n
    ensures Min(l.qty, Over(n, l.price)) == if Times(l.qty, l.price) <= n then l.qty else Over(n, l.price)
  {
    var x := n / l.price;
    assert x * l.price == n;
    if x <= 0.0 {
      Product(-x, l.price);
    }
    if x < l.qty {
      Product(l.qty - x, l.price);
    } else {
      Product(x - l.qty, l.price);
    }
  }

  lemma Product(a: real, b: real)
    requires a >= 0.0 && b >= 0.0
    ensures Times(a, b) >= 0.0 && a * b >= 0.0
    ensures a > 0.0 && b > 0.0 ==> Times(a, b) > 0.0 && a * b > 0.0
  {}

  lemma Unit(a: real, b: real)
    ensures Times(a, 1.0) == a && Times(a, 0.0) == 0.0 && Times(0.0, a) == 0.0
    ensures Times(a, b) == Times(b, a)
  {}

  /** Every probe fills its notional, or the whole book. */
  lemma {:induction false} FilledNotional(levels: seq<Level>, n: real)
    requires Positive(levels)
    ensures Notional(levels) >= 0.0
    ensures Walk(levels, n).notional == Min(Max(n, 0.0), Notional(levels))
  {
    hide Times, Over;
    if levels != [] {
      var l := levels[0];
      Product(l.qty, l.price);
      FilledNotional(levels[1..], n - Times(l.qty, l.price));
      assert Notional(levels) == Times(l.qty, l.price) + Notional(levels[1..]);
    }
  }

  lemma {:induction false} WalkTakesSomething(levels: seq<Level>, n: real)
    requires Positive(levels)
    ensures Walk(levels, n).qty >= 0.0
    ensures n > 0.0 && levels != [] ==> Walk(levels, n).qty > 0.0
  {
    hide Times, Over;
    if levels != [] && n > 0.0 {
      var l := levels[0];
      TakeOne(l, n);
      WalkTakesSomething(levels[1..], n - Times(l.qty, l.price));
    }
  }

  lemma {:induction false} WalkTakesAll(levels: seq<Level>, n: real)
    requires Positive(levels) && n >= Notional(levels)
    ensures Walk(levels, n).qty == Qty(levels)
  {
    hide Times, Over;
    if levels != [] {
      var l := levels[0];
      Product(l.qty, l.price);
      Unit(l.qty, 0.0);
      FilledNotional(levels[1..], 0.0);
      assert Notional(levels) == Times(l.qty, l.price) + Notional(levels[1..]);
      WalkTakesAll(levels[1..], n - Times(l.qty, l.price));
    }
  }

  /** The price of the level a probe of `n` ends in. */
  function Marginal(levels: seq<Level>, n: real): real
    requires Positive(levels) && 0.0 < n <= Notional(levels)
  {
    if Times(levels[0].qty, levels[0].price) >= n then levels[0].price
    else Marginal(levels[1..], n - Times(levels[0].qty, levels[0].price))
  }

  lemma {:induction false} MarginalIsAPrice(levels: seq<Level>, n: real)
    requires Positive(levels) && 0.0 < n <= Notional(levels)
    ensures exists i :: 0 <= i < |levels| && levels[i].price == Marginal(levels, n)
  {
    hide Times, Over;
    if Times(levels[0].qty, levels[0].price) >= n {
      assert levels[0].price == Marginal(levels, n);
    } else {
      var n' := n - Times(levels[0].qty, levels[0].price);
      MarginalIsAPrice(levels[1..], n');
      var i :| 0 <= i < |levels[1..]| && levels[1..][i].price == Marginal(levels[1..], n');
      assert levels[i + 1].price == Marginal(levels, n);
    }
  }

  /** What a walk of `n` fills, against the gains beyond the reference price `k`. */
  predicate AttainsBound(side: Side, levels: seq<Level>, n: real, k: real)
    requires Positive(levels)
  {
    k > 0.0 &&
    if side.Buy? then Times(k, Walk(levels, n).qty) == n + Worth(levels, Gain(side, k))
    else n == Times(k, Walk(levels, n).qty) + Worth(levels, Gain(side, k))
  }

  /** At its own marginal price the walk attains the bound every allocation obeys. */
  lemma {:induction false} WalkAttainsBound(side: Side, levels: seq<Level>, n: real)
    requires Positive(levels) && BestFirst(side, levels) && 0.0 < n <= Notional(levels)
    ensures AttainsBound(side, levels, n, Marginal(levels, n))
  {
    hide Times, Over;
    var l := levels[0];
    var rest := levels[1..];
    assert Notional(levels) == Times(l.qty, l.price) + Notional(rest);
    if Times(l.qty, l.price) >= n {
      EndsHere(side, levels, n);
    } else {
      var n' := n - Times(l.qty, l.price);
      Product(l.qty, l.price);
      WalkAttainsBound(side, rest, n');
      GoesOn(side, levels, n);
    }
  }

  lemma GoesOn(side: Side, levels: seq<Level>, n: real)
    requires Positive(levels) && BestFirst(side, levels) && n <= Notional(levels)
    requires levels != [] && 0.0 < Times(levels[0].qty, levels[0].price) < n
    requires var rest, n' := levels[1..], n - Times(levels[0].qty, levels[0].price);
             n' <= Notional(rest) && AttainsBound(side, rest, n', Marginal(rest, n'))
    ensures AttainsBound(side, levels, n, Marginal(levels, n))
  {
    hide Times, Over;
    var l, rest := levels[0], levels[1..];
    var n' := n - Times(l.qty, l.price);
    var k := Marginal(rest, n');
    MarginalIsAPrice(rest, n');
    assert AsGood(side, l.price, k);
    WorthOfOneMore(side, levels, k);
    BoundStep(side, k, l.price, l.qty, Walk(rest, n').qty, n, Worth(rest, Gain(side, k)));
    assert Walk(levels, n).qty == l.qty + Walk(rest, n').qty;
  }

  lemma WorthOfOneMore(side: Side, levels: seq<Level>, k: real)
    requires levels != [] && AsGood(side, levels[0].price, k)
    ensures var p := levels[0].price;
            Worth(levels, Gain(side, k)) ==
            Times(levels[0].qty, if side.Buy? then k - p else p - k) + Worth(levels[1..], Gain(side, k))
  {
    hide Times;
  }

  lemma EndsHere(side: Side, levels: seq<Level>, n: real)
    requires Positive(levels) && BestFirst(side, levels) && levels != []
    requires 0.0 < n <= Times(levels[0].qty, levels[0].price)
    ensures Worth(levels, Gain(side, levels[0].price)) == 0.0
    ensures Times(levels[0].price, Walk(levels, n).qty) == n
  {
    hide Times, Over;
    var l := levels[0];
    NothingGained(side, levels[1..], l.price);
    WorthOfOneMore(side, levels, l.price);
    TakeOne(l, n);
    Unit(l.qty, l.price);
    Unit(Over(n, l.price), l.price);
    if Times(l.qty, l.price) == n {
      assert Walk(levels[1..], 0.0).qty == 0.0;
    }
  }

  lemma BoundStep(side: Side, k: real, p: real, q: real, w: real, n: real, s: real)
    requires if side.Buy? then Times(k, w) == n - Times(q, p) + s else n - Times(q, p) == Times(k, w) + s
    ensures if side.Buy? then Times(k, q + w) == n + (Times(q, k - p) + s)
            else n == Times(k, q + w) + (Times(q, p - k) + s)
  {
    assert k * (q + w) == k * q + k * w;
    assert q * (k - p) == q * k - q * p;
  }

  // ---------------------------------------------------------------- optimality

  /** An allocation takes a quantity within each level's. */
  predicate Allocation(levels: seq<Level>, x: seq<real>) {
    |x| == |levels| && forall i | 0 <= i < |x| :: 0.0 <= x[i] <= levels[i].qty
  }

  function Taken(x: seq<real>): real { if x == [] then 0.0 else x[0] + Taken(x[1..]) }

  function Paid(levels: seq<Level>, x: seq<real>): real
    requires |x| == |levels|
  {
    if x == [] then 0.0 else Times(x[0], levels[0].price) + Paid(levels[1..], x[1..])
  }

  lemma {:induction false} AllocationBound(side: Side, levels: seq<Level>, x: seq<real>, k: real)
    requires Positive(levels) && Allocation(levels, x)
    ensures if side.Buy? then Times(k, Taken(x)) <= Paid(levels, x) + Worth(levels, Gain(side, k))
            else Paid(levels, x) <= Times(k, Taken(x)) + Worth(levels, Gain(side, k))
  {
    hide Times, Over;
    Unit(k, 0.0);
    if x != [] {
      var l := levels[0];
      AllocationBound(side, levels[1..], x[1..], k);
      GainOfOne(x[0], l.qty, if side.Buy? then k - l.price else l.price - k);
      AllocationStep(side, k, l.price, x[0], Taken(x[1..]), Paid(levels[1..], x[1..]),
                     Times(l.qty, Gain(side, k)(l.price)), Worth(levels[1..], Gain(side, k)));
    }
  }

  lemma AllocationStep(side: Side, k: real, p: real, x: real, t: real, paid: real, gain: real, s: real)
    requires if side.Buy? then Times(k, t) <= paid + s else paid <= Times(k, t) + s
    requires if side.Buy? then Times(x, k - p) <= gain else Times(x, p - k) <= gain
    ensures if side.Buy? then Times(k, x + t) <= (Times(x, p) + paid) + (gain + s)
            else Times(x, p) + paid <= Times(k, x + t) + (gain + s)
  {
    hide Times;
    Distribute(k, x, t);
    Distribute(x, k, p);
    Distribute(x, p, k);
    Unit(x, k);
  }

  lemma Distribute(a: real, b: real, c: real)
    ensures Times(a, b + c) == Times(a, b) + Times(a, c)
    ensures Times(a, b - c) == Times(a, b) - Times(a, c)
  {}

  lemma GainOfOne(x: real, q: real, d: real)
    requires 0.0 <= x <= q
    ensures Times(x, d) <= Times(q, Max(0.0, d))
  {
    if d >= 0.0 {
      Product(q - x, d);
    } else {
      Product(x, -d);
    }
  }

  /** The allocation the walk makes. */
  function Greedy(levels: seq<Level>, n: real): seq<real>
    requires Positive(levels)
  {
    if levels == [] then []
    else
      var l := levels[0];
      if n <= 0.0 then [0.0] + Greedy(levels[1..], n)
      else if Times(l.qty, l.price) <= n then [l.qty] + Greedy(levels[1..], n - Times(l.qty, l.price))
      else [Over(n, l.price)] + Greedy(levels[1..], 0.0)
  }

  lemma {:induction false} WalkIsAnAllocation(levels: seq<Level>, n: real)
    requires Positive(levels)
    ensures Allocation(levels, Greedy(levels, n))
    ensures Taken(Greedy(levels, n)) == Walk(levels, n).qty
    ensures Paid(levels, Greedy(levels, n)) == Walk(levels, n).notional
  {
    hide Times, Over;
    if levels != [] {
      var l := levels[0];
      var x := Greedy(levels, n);
      var n' := if n <= 0.0 then n else if Times(l.qty, l.price) <= n then n - Times(l.qty, l.price) else 0.0;
      WalkIsAnAllocation(levels[1..], n');
      assert x[1..] == Greedy(levels[1..], n');
      Unit(l.price, 0.0);
      if n > 0.0 {
        TakeOne(l, n);
      }
    }
  }

  lemma WalkBound(side: Side, levels: seq<Level>, n: real, k: real)
    requires Positive(levels)
    ensures var f := Walk(levels, n);
            if side.Buy? then Times(k, f.qty) <= f.notional + Worth(levels, Gain(side, k))
            else f.notional <= Times(k, f.qty) + Worth(levels, Gain(side, k))
  {
    hide *;
    WalkIsAnAllocation(levels, n);
    AllocationBound(side, levels, Greedy(levels, n), k);
  }

  lemma {:induction false} TakenAtMostQty(levels: seq<Level>, x: seq<real>)
    requires Allocation(levels, x)
    ensures Taken(x) <= Qty(levels)
  {
    hide Times, Over;
    if x != [] {
      Unit(levels[0].qty, 0.0);
      TakenAtMostQty(levels[1..], x[1..]);
    }
  }

  lemma ScaleLe(k: real, a: real, b: real)
    requires k > 0.0 && Times(k, a) <= Times(k, b)
    ensures a <= b
  {
    if a > b {
      Product(k, a - b);
    }
  }

  /** No way of spending at most `n` on the resting quantities obtains more base. */
  lemma BuyWalkIsOptimal(levels: seq<Level>, n: real, x: seq<real>)
    requires Positive(levels) && BestFirst(Buy, levels)
    requires Allocation(levels, x) && Paid(levels, x) <= n
    ensures Taken(x) <= Walk(levels, n).qty
  {
    hide Times, Over;
    if n <= 0.0 {
      NothingForNothing(levels, x);
    } else if n <= Notional(levels) {
      BuyWithinBook(levels, n, x);
    } else {
      WalkTakesAll(levels, n);
      TakenAtMostQty(levels, x);
    }
  }

  lemma BuyWithinBook(levels: seq<Level>, n: real, x: seq<real>)
    requires Positive(levels) && BestFirst(Buy, levels) && 0.0 < n <= Notional(levels)
    requires Allocation(levels, x) && Paid(levels, x) <= n
    ensures Taken(x) <= Walk(levels, n).qty
  {
    hide Times, Over, Walk, Worth, Gain, Marginal, BestFirst, Positive, Paid, Taken, Allocation, Notional, GainsAtMost;
    WalkAttainsBound(Buy, levels, n);
    var k := Marginal(levels, n);
    AllocationBound(Buy, levels, x, k);
    ScaleLe(k, Taken(x), Walk(levels, n).qty);
  }

  lemma {:induction false} NothingForNothing(levels: seq<Level>, x: seq<real>)
    requires Positive(levels) && Allocation(levels, x) && Paid(levels, x) <= 0.0
    ensures Taken(x) <= 0.0
  {
    hide Times;
    if x != [] {
      PaidNonNegative(levels[1..], x[1..]);
      Product(x[0], levels[0].price);
      NothingForNothing(levels[1..], x[1..]);
    }
  }

  lemma {:induction false} PaidNonNegative(levels: seq<Level>, x: seq<real>)
    requires Positive(levels) && Allocation(levels, x)
    ensures Paid(levels, x) >= 0.0
  {
    hide Times, Over;
    if x != [] {
      PaidNonNegative(levels[1..], x[1..]);
      Product(x[0], levels[0].price);
    }
  }

  /** No way of raising at least `n` from the resting quantities sells less base. */
  lemma SellWalkIsOptimal(levels: seq<Level>, n: real, x: seq<real>)
    requires Positive(levels) && BestFirst(Sell, levels)
    requires 0.0 < n <= Notional(levels)
    requires Allocation(levels, x) && Paid(levels, x) >= n
    ensures Walk(levels, n).qty <= Taken(x)
  {
    hide Times, Over, Walk, Worth, Gain, Marginal, BestFirst, Positive, Paid, Taken, Allocation, Notional, GainsAtMost;
    WalkAttainsBound(Sell, levels, n);
    var k := Marginal(levels, n);
    AllocationBound(Sell, levels, x, k);
    ScaleLe(k, Walk(levels, n).qty, Taken(x));
  }

  // ---------------------------------------------------------------- comparing books

  /** The gains of `worse` never exceed those of `better`, at any reference price. */
  ghost predicate GainsAtMost(side: Side, worse: seq<Level>, better: seq<Level>) {
    forall k | k >= 0.0 :: Worth(worse, Gain(side, k)) <= Worth(better, Gain(side, k))
  }

  lemma GainsAtMostAt(side: Side, worse: seq<Level>, better: seq<Level>, k: real)
    requires GainsAtMost(side, worse, better) && k >= 0.0
    ensures Worth(worse, Gain(side, k)) <= Worth(better, Gain(side, k))
  {}

  /** A book whose gains never exceed another's is never the better book to buy from. */
  lemma BuyFromWorseBook(worse: seq<Level>, better: seq<Level>, n: real)
    requires Positive(worse) && Positive(better) && BestFirst(Buy, better)
    requires Qty(worse) <= Qty(better) && GainsAtMost(Buy, worse, better)
    ensures Walk(worse, n).qty <= Walk(better, n).qty
  {
    hide Times, Over;
    FilledNotional(worse, n);
    if n > Notional(better) {
      FilledNotional(better, n);
      WalkTakesAll(better, n);
      WalkIsAnAllocation(worse, n);
      TakenAtMostQty(worse, Greedy(worse, n));
    } else if n > 0.0 {
      BuyWithinBetterBook(worse, better, n);
    }
  }

  lemma BuyWithinBetterBook(worse: seq<Level>, better: seq<Level>, n: real)
    requires Positive(worse) && Positive(better) && BestFirst(Buy, better)
    requires GainsAtMost(Buy, worse, better) && 0.0 < n <= Notional(better)
    requires Walk(worse, n).notional <= n
    ensures Walk(worse, n).qty <= Walk(better, n).qty
  {
    hide Times, Over, Walk, Worth, Gain, Marginal, BestFirst, Positive, Paid, Taken, Allocation, Notional, GainsAtMost;
    WalkAttainsBound(Buy, better, n);
    var k := Marginal(better, n);
    GainsAtMostAt(Buy, worse, better, k);
    WalkBound(Buy, worse, n, k);
    ScaleLe(k, Walk(worse, n).qty, Walk(better, n).qty);
  }

  lemma SellIntoWorseBook(worse: seq<Level>, better: seq<Level>, n: real)
    requires Positive(worse) && Positive(better) && BestFirst(Sell, better)
    requires 0.0 < n <= Notional(worse) && GainsAtMost(Sell, worse, better)
    ensures n <= Notional(better)
    ensures Walk(better, n).qty <= Walk(worse, n).qty
  {
    hide Times, Over;
    FilledNotional(worse, n);
    NotionalIsGainOverZero(worse);
    NotionalIsGainOverZero(better);
    GainsAtMostAt(Sell, worse, better, 0.0);
    SellWithinBothBooks(worse, better, n);
  }

  lemma SellWithinBothBooks(worse: seq<Level>, better: seq<Level>, n: real)
    requires Positive(worse) && Positive(better) && BestFirst(Sell, better)
    requires GainsAtMost(Sell, worse, better) && 0.0 < n <= Notional(better)
    requires Walk(worse, n).notional == n
    ensures Walk(better, n).qty <= Walk(worse, n).qty
  {
    hide Times, Over, Walk, Worth, Gain, Marginal, BestFirst, Positive, Paid, Taken, Allocation, Notional, GainsAtMost;
    WalkAttainsBound(Sell, better, n);
    var k := Marginal(better, n);
    GainsAtMostAt(Sell, worse, better, k);
    WalkBound(Sell, worse, n, k);
    ScaleLe(k, Walk(better, n).qty, Walk(worse, n).qty);
  }

  lemma {:induction false} NotionalIsGainOverZero(levels: seq<Level>)
    requires Positive(levels)
    ensures Worth(levels, Gain(Sell, 0.0)) == Notional(levels)
  {
    if levels != [] {
      NotionalIsGainOverZero(levels[1..]);
    }
  }

  /** The walk sees the book as a bag: any two listings of it fill alike. */
  lemma WalkIgnoresListingOrder(side: Side, a: seq<Level>, b: seq<Level>, n: real)
    requires Positive(a) && Positive(b) && BestFirst(side, a) && BestFirst(side, b)
    requires multiset(a) == multiset(b)
    ensures Walk(a, n).qty == Walk(b, n).qty
    ensures Walk(a, n).notional == Walk(b, n).notional
  {
    hide Times, Over;
    WorthOfPermutation(a, b, One());
    WorthOfPermutation(a, b, Itself());
    forall k: real ensures Worth(a, Gain(side, k)) == Worth(b, Gain(side, k)) {
      WorthOfPermutation(a, b, Gain(side, k));
    }
    assert GainsAtMost(side, a, b) && GainsAtMost(side, b, a);
    FilledNotional(a, n);
    FilledNotional(b, n);
    if side.Buy? {
      BuyFromWorseBook(a, b, n);
      BuyFromWorseBook(b, a, n);
    } else if n > Notional(a) {
      WalkTakesAll(a, n);
      WalkTakesAll(b, n);
    } else if n > 0.0 {
      SellIntoWorseBook(a, b, n);
      SellIntoWorseBook(b, a, n);
    }
  }

  /** A larger probe never gets a better average price, compared without dividing. */
  lemma LargerProbeNeverCheaper(side: Side, levels: seq<Level>, n1: real, n2: real)
    requires Positive(levels) && BestFirst(side, levels) && 0.0 < n1 <= n2
    ensures var f1, f2 := Walk(levels, n1), Walk(levels, n2);
            if side.Buy? then Times(f1.notional, f2.qty) <= Times(f2.notional, f1.qty)
            else Times(f2.notional, f1.qty) <= Times(f1.notional, f2.qty)
  {
    hide Times, Over;
    FilledNotional(levels, n1);
    FilledNotional(levels, n2);
    if n1 <= Notional(levels) {
      forall k: real ensures Worth(levels, Gain(side, k)) >= 0.0 {
        WorthNonNegative(levels, Gain(side, k));
      }
      LargerProbeWithinBook(side, levels, n1, n2);
    } else {
      WalkTakesAll(levels, n1);
      WalkTakesAll(levels, n2);
    }
  }

  lemma LargerProbeWithinBook(side: Side, levels: seq<Level>, n1: real, n2: real)
    requires Positive(levels) && BestFirst(side, levels) && 0.0 < n1 <= Notional(levels)
    requires Walk(levels, n1).notional == n1 <= Walk(levels, n2).notional
    requires forall k: real :: Worth(levels, Gain(side, k)) >= 0.0
    ensures var f1, f2 := Walk(levels, n1), Walk(levels, n2);
            if side.Buy? then Times(f1.notional, f2.qty) <= Times(f2.notional, f1.qty)
            else Times(f2.notional, f1.qty) <= Times(f1.notional, f2.qty)
  {
    hide Times, Over, Walk, Worth, Gain, Marginal, BestFirst, Positive, Notional;
    var f1, f2 := Walk(levels, n1), Walk(levels, n2);
    WalkAttainsBound(side, levels, n1);
    var k := Marginal(levels, n1);
    WalkBound(side, levels, n2, k);
    ImpactStep(side, k, Worth(levels, Gain(side, k)), n1, f1.qty, f2.notional, f2.qty);
  }

  lemma ImpactStep(side: Side, k: real, s: real, n1: real, q1: real, n2: real, q2: real)
    requires k > 0.0 && s >= 0.0 && 0.0 < n1 <= n2
    requires if side.Buy? then Times(k, q1) == n1 + s && Times(k, q2) <= n2 + s
             else n1 == Times(k, q1) + s && n2 <= Times(k, q2) + s
    ensures if side.Buy? then Times(n1, q2) <= Times(n2, q1) else Times(n2, q1) <= Times(n1, q2)
  {
    Product(n2 - n1, s);
    var a, b := n1 * q2, n2 * q1;
    assert Times(k, a) == n1 * (k * q2) && Times(k, b) == n2 * (k * q1);
    if side.Buy? {
      Product(n1, n2 + s - k * q2);
      ScaleLe(k, a, b);
    } else {
      Product(n1, k * q2 + s - n2);
      ScaleLe(k, b, a);
    }
  }

  lemma RatioLe(a: real, b: real, c: real, d: real)
    requires b > 0.0 && d > 0.0 && Times(a, d) <= Times(c, b)
    ensures a / b <= c / d
  {
    var x, y := a / b, c / d;
    assert x * b == a && y * d == c;
    assert Times(b * d, x) == a * d && Times(b * d, y) == c * b;
    Product(b, d);
    ScaleLe(b * d, x, y);
  }

  // ---------------------------------------------------------------- the probe

  function Book(orders: seq<Resting>, probe: Side): (r: seq<Level>)
    ensures Positive(r) && BestFirst(probe, r)
  {
    var usable := UsableLevels(orders, Opposite(probe));
    var r := Sorted(probe, usable);
    assert forall l | l in r :: l in multiset(r) && l in multiset(usable) && l in usable;
    assert forall i | 0 <= i < |r| :: r[i] in r;
    assert forall l | l in usable :: l.price > 0.0 && l.qty > 0.0;
    r
  }

  /** How often a level is offered to a probe: by orders of the other side, or of no stated side, that
      are open, or of no stated status, at a positive price and size. */
  function Offers(orders: seq<Resting>, probe: Side, l: Level): nat {
    if orders == [] then 0
    else
      var o := orders[0];
      (if && (o.side.None? || o.side.value == if probe.Buy? then Sell else Buy)
          && (o.open == None || o.open == Some(true))
          && o.price > 0.0 && o.quantity > 0.0
          && o.price == l.price && o.quantity == l.qty
       then 1 else 0) + Offers(orders[1..], probe, l)
  }

  lemma CountFirst(m: Level, rest: seq<Level>, l: Level)
    ensures multiset([m] + rest)[l] == (if m == l then 1 else 0) + multiset(rest)[l]
  {
    assert multiset([m] + rest) == multiset{m} + multiset(rest);
  }

  lemma UsableFirst(orders: seq<Resting>, want: Side)
    requires orders != []
    ensures var o, rest := orders[0], UsableLevels(orders[1..], want);
            UsableLevels(orders, want) == if Usable(o, want) then [Level(o.price, o.quantity)] + rest else rest
  {
    assert [] + UsableLevels(orders[1..], want) == UsableLevels(orders[1..], want);
  }

  lemma {:induction false} UsableAreOffers(orders: seq<Resting>, probe: Side, l: Level)
    ensures multiset(UsableLevels(orders, Opposite(probe)))[l] == Offers(orders, probe, l)
  {
    if orders != [] {
      var o, rest := orders[0], UsableLevels(orders[1..], Opposite(probe));
      UsableAreOffers(orders[1..], probe, l);
      UsableFirst(orders, Opposite(probe));
      CountFirst(Level(o.price, o.quantity), rest, l);
      hide UsableLevels;
    }
  }

  /** The book a probe walks holds exactly the levels it is offered, best first: for a buy probe no
      level is cheaper than one before it, for a sell probe none is dearer. */
  lemma BookHoldsTheOffers(orders: seq<Resting>, probe: Side, l: Level)
    ensures multiset(Book(orders, probe))[l] == Offers(orders, probe, l)
    ensures forall i, j | 0 <= i < j < |Book(orders, probe)| ::
              var p, q := Book(orders, probe)[i].price, Book(orders, probe)[j].price;
              if probe.Buy? then p <= q else p >= q
  {
    UsableAreOffers(orders, probe, l);
  }

  function Conclude(usable: seq<Level>, n: real, filledQty: real, filledNotional: real, consumed: nat,
                    available: real): Verdict
  {
    Verdict(n > 0.0 && filledNotional + TOLERANCE >= n, n, filledQty, filledNotional,
            if filledQty > 0.0 then filledNotional / filledQty else 0.0,
            if usable == [] then None else Some(usable[0].price), consumed, |usable|, available)
  }

  /** The verdict of the walk over the sorted book. */
  function Probe(orders: seq<Resting>, probe: Side, n: real): Verdict {
    var book := Book(orders, probe);
    var f := Walk(book, n);
    Conclude(book, n, f.qty, f.notional, f.consumed, Notional(book))
  }

  /** The canary's probe, as a loop over the sorted resting orders. */
  method SimulateMarketFill(orders: seq<Resting>, probe: Side, n: real) returns (v: Verdict)
    ensures v == Probe(orders, probe, n)
    ensures var book := Book(orders, probe);
            && v.filledQty == Walk(book, n).qty
            && v.filledNotional == Min(Max(n, 0.0), Notional(book))
            && v.availableNotional == Notional(book)
            && v.levelsConsumed == Walk(book, n).consumed
            && v.restingLevels == |book| && v.probeNotional == n
            && (v.fillable <==> 0.0 < n <= Notional(book) + 0.000000001)
    ensures v.filledQty > 0.0 ==> v.avgPrice * v.filledQty == v.filledNotional
    ensures v.filledQty <= 0.0 ==> v.avgPrice == 0.0
    ensures var book := Book(orders, probe);
            if book == [] then v.bestPrice == None
            else && v.bestPrice.Some?
                 && (exists l :: l in book && l.price == v.bestPrice.value)
                 && forall l | l in book :: if probe.Buy? then v.bestPrice.value <= l.price else v.bestPrice.value >= l.price
  {
    hide Times, Over, Book, Walk, Notional;
    var usable := Book(orders, probe);
    var remaining, filledQty, filledNotional, available := n, 0.0, 0.0, 0.0;
    var consumed := 0;
    var i := 0;
    assert usable[0..] == usable;
    while i < |usable|
      invariant 0 <= i <= |usable|
      invariant available + Notional(usable[i..]) == Notional(usable)
      invariant Rejoined(Fill(filledQty, filledNotional, consumed), Walk(usable[i..], remaining)) == Walk(usable, n)
    {
      var l := usable[i];
      assert usable[i..][1..] == usable[i + 1..] && usable[i..][0] == l;
      OneLevel(usable[i..], remaining);
      available := available + Times(l.price, l.qty);
      if remaining > 0.0 {
        var take := Min(l.qty, Over(remaining, l.price));
        filledQty := filledQty + take;
        filledNotional := filledNotional + Times(take, l.price);
        remaining := remaining - Times(take, l.price);
        consumed := consumed + 1;
      }
      i := i + 1;
    }
    assert usable[i..] == [];
    NothingLeft(remaining);
    FilledNotional(usable, n);
    v := Conclude(usable, n, filledQty, filledNotional, consumed, available);
    AverageTimesQuantity(filledNotional, filledQty);
    assert usable != [] ==> forall l | l in usable :: AsGood(probe, usable[0].price, l.price);
    assert usable != [] ==> usable[0] in usable;
  }

  lemma NothingLeft(n: real)
    ensures Walk([], n) == Fill(0.0, 0.0, 0) && Notional([]) == 0.0
  {}

  lemma AverageTimesQuantity(a: real, b: real)
    ensures b > 0.0 ==> (a / b) * b == a
  {}

  /** One turn of the loop, with the minimum the loop takes. */
  lemma OneLevel(levels: seq<Level>, n: real)
    requires Positive(levels) && levels != []
    ensures var l := levels[0];
            && Notional(levels) == Times(l.price, l.qty) + Notional(levels[1..])
            && (n <= 0.0 ==> Walk(levels[1..], n) == Walk(levels, n))
            && (n > 0.0 ==>
                  var take := Min(l.qty, Over(n, l.price));
                  Rejoined(Fill(take, Times(take, l.price), 1), Walk(levels[1..], n - Times(take, l.price)))
                  == Walk(levels, n))
  {
    hide Times, Over;
    var l := levels[0];
    Unit(l.qty, l.price);
    if n > 0.0 {
      TakeOne(l, n);
      assert Walk(levels[1..], 0.0) == Fill(0.0, 0.0, 0);
    }
  }

  /** The probe's verdict does not depend on how the hash lists the orders. */
  lemma {:induction false} UsableLevelsOfPermutation(a: seq<Resting>, b: seq<Resting>, want: Side)
    requires multiset(a) == multiset(b)
    ensures multiset(UsableLevels(a, want)) == multiset(UsableLevels(b, want))
  {
    if a == [] {
      assert |multiset(b)| == 0;
    } else {
      var j := Without(a, b);
      var tail := [b[j]] + b[j + 1..];
      assert b == b[..j] + tail && tail[1..] == b[j + 1..];
      UsableLevelsOfPermutation(a[1..], b[..j] + b[j + 1..], want);
      UsableLevelsAppend(b[..j], tail, want);
      UsableLevelsAppend(b[..j], b[j + 1..], want);
    }
  }

  lemma {:induction false} UsableLevelsAppend(a: seq<Resting>, b: seq<Resting>, want: Side)
    ensures UsableLevels(a + b, want) == UsableLevels(a, want) + UsableLevels(b, want)
  {
    if a == [] {
      assert a + b == b;
    } else {
      assert (a + b)[1..] == a[1..] + b;
      UsableLevelsAppend(a[1..], b, want);
    }
  }

  /** The verdict does not depend on how the orders are listed, but for the number of levels it
      consumed. */
  lemma ProbeIgnoresListingOrder(a: seq<Resting>, b: seq<Resting>, probe: Side, n: real)
    requires multiset(a) == multiset(b)
    ensures var v, w := Probe(a, probe, n), Probe(b, probe, n); v == w.(levelsConsumed := v.levelsConsumed)
  {
    hide Times, Over;
    UsableLevelsOfPermutation(a, b, Opposite(probe));
    WalkIgnoresListingOrder(probe, Book(a, probe), Book(b, probe), n);
    WorthOfPermutation(Book(a, probe), Book(b, probe), Itself());
    SameSizeAndBest(probe, Book(a, probe), Book(b, probe));
  }

  lemma SameSizeAndBest(side: Side, a: seq<Level>, b: seq<Level>)
    requires BestFirst(side, a) && BestFirst(side, b) && multiset(a) == multiset(b)
    ensures |a| == |b| && (a != [] ==> a[0].price == b[0].price)
  {
    assert |multiset(a)| == |multiset(b)|;
    if a != [] {
      assert a[0] in multiset(b) && b[0] in multiset(a);
      var i :| 0 <= i < |b| && b[i] == a[0];
      var j :| 0 <= j < |a| && a[j] == b[0];
    }
  }

  // ---------------------------------------------------------------- levels consumed

  /** Orders at one price have one size. */
  predicate TiesAreEqual(levels: seq<Level>) {
    forall l, m | l in levels && m in levels && l.price == m.price :: l == m
  }

  ghost predicate CountIgnoresListing(orders: seq<Resting>, probe: Side) {
    forall b, n | multiset(b) == multiset(orders) ::
      Probe(b, probe, n).levelsConsumed == Probe(orders, probe, n).levelsConsumed
  }

  lemma SameFirst(side: Side, a: seq<Level>, b: seq<Level>)
    requires BestFirst(side, a) && BestFirst(side, b) && multiset(a) == multiset(b) && TiesAreEqual(a) && a != []
    ensures b != [] && a[0] == b[0] && multiset(a[1..]) == multiset(b[1..])
  {
    SameSizeAndBest(side, a, b);
    assert b[0] in multiset(b) && b[0] in multiset(a);
    assert a == [a[0]] + a[1..] && b == [b[0]] + b[1..];
    assert multiset(a) == multiset{a[0]} + multiset(a[1..]) && multiset(b) == multiset{b[0]} + multiset(b[1..]);
    assert multiset(a[1..]) == multiset(a) - multiset{a[0]};
    assert multiset(b[1..]) == multiset(b) - multiset{b[0]};
  }

  lemma TailsInOrder(side: Side, a: seq<Level>)
    requires BestFirst(side, a) && a != []
    ensures BestFirst(side, a[1..]) && (TiesAreEqual(a) ==> TiesAreEqual(a[1..]))
  {
    assert forall l | l in a[1..] :: l in a;
  }

  lemma {:induction false} SortedOnce(side: Side, a: seq<Level>, b: seq<Level>)
    requires BestFirst(side, a) && BestFirst(side, b) && multiset(a) == multiset(b) && TiesAreEqual(a)
    ensures a == b
  {
    if a != [] {
      SameFirst(side, a, b);
      TailsInOrder(side, a);
      TailsInOrder(side, b);
      hide BestFirst, TiesAreEqual;
      SortedOnce(side, a[1..], b[1..]);
      assert a == [a[0]] + a[1..] && b == [b[0]] + b[1..];
    } else {
      assert |multiset(b)| == |multiset(a)|;
    }
  }

  /** A level inserted after everything better, before everything else. */
  predicate Lands(side: Side, l: Level, levels: seq<Level>, k: nat) {
    && k <= |levels|
    && (forall i | 0 <= i < k :: !AsGood(side, l.price, levels[i].price))
    && (k < |levels| ==> AsGood(side, l.price, levels[k].price))
  }

  function Put(levels: seq<Level>, k: nat, more: seq<Level>): seq<Level>
    requires k <= |levels|
  {
    levels[..k] + more + levels[k..]
  }

  lemma PutLater(levels: seq<Level>, k: nat, more: seq<Level>)
    requires levels != [] && k <= |levels| - 1
    ensures Put(levels, k + 1, more) == [levels[0]] + Put(levels[1..], k, more)
  {
    assert levels[..k + 1] == [levels[0]] + levels[1..][..k];
    assert levels[k + 1..] == levels[1..][k..];
  }

  lemma InsertBehind(side: Side, l: Level, levels: seq<Level>)
    requires BestFirst(side, levels) && levels != [] && !AsGood(side, l.price, levels[0].price)
    ensures BestFirst(side, levels[1..])
    ensures Insert(side, l, levels) == [levels[0]] + Insert(side, l, levels[1..])
  {}

  lemma {:induction false} InsertedAt(side: Side, l: Level, levels: seq<Level>) returns (k: nat)
    requires BestFirst(side, levels)
    ensures Lands(side, l, levels, k) && Insert(side, l, levels) == Put(levels, k, [l])
  {
    if levels == [] || AsGood(side, l.price, levels[0].price) {
      k := 0;
      assert levels[..0] + [l] + levels[0..] == [l] + levels;
    } else {
      InsertBehind(side, l, levels);
      k := InsertedAt(side, l, levels[1..]);
      PutLater(levels, k, [l]);
      k := k + 1;
      hide Put, Insert, BestFirst;
      forall i | 0 <= i < k ensures !AsGood(side, l.price, levels[i].price) {
        if i > 0 {
          assert levels[1..][i - 1] == levels[i];
        }
      }
      assert k < |levels| ==> levels[1..][k - 1] == levels[k];
    }
  }

  lemma LandsTogether(side: Side, l: Level, m: Level, levels: seq<Level>, k: nat, j: nat)
    requires l.price == m.price && Lands(side, m, levels, k) && Lands(side, l, Put(levels, k, [m]), j)
    ensures j == k
    ensures Put(Put(levels, k, [m]), k, [l]) == Put(levels, k, [l, m])
  {
    var once := Put(levels, k, [m]);
    assert once[k] == m;
    assert forall i | 0 <= i < k :: once[i] == levels[i];
    assert once[..k] == levels[..k] && once[k..] == [m] + levels[k..];
  }

  /** Two levels at one price stay in the order they were listed in. */
  lemma TwoInserted(side: Side, l: Level, m: Level, levels: seq<Level>) returns (k: nat)
    requires BestFirst(side, levels) && l.price == m.price
    ensures Lands(side, l, levels, k) && Insert(side, l, Insert(side, m, levels)) == Put(levels, k, [l, m])
  {
    k := InsertedAt(side, m, levels);
    var j := InsertedAt(side, l, Insert(side, m, levels));
    hide Insert, BestFirst, Put;
    LandsTogether(side, l, m, levels, k, j);
  }

  lemma LandsOnce(side: Side, l: Level, m: Level, levels: seq<Level>, j: nat, k: nat)
    requires l.price == m.price && Lands(side, l, levels, j) && Lands(side, m, levels, k)
    ensures j == k
  {
    assert forall i | 0 <= i < k :: !AsGood(side, l.price, levels[i].price);
    assert forall i | 0 <= i < j :: !AsGood(side, m.price, levels[i].price);
  }

  /** A walk that gets past the first levels consumes them all. */
  lemma {:induction false} WalkPast(a: seq<Level>, b: seq<Level>, n: real)
    requires Positive(a + b) && Positive(b) && n >= Notional(a)
    ensures Walk(a + b, n).consumed == |a| + Walk(b, n - Notional(a)).consumed
  {
    hide Times, Over;
    if a == [] {
      assert a + b == b;
    } else {
      var l, rest := a[0], a[1..];
      assert (a + b)[0] == l && (a + b)[1..] == rest + b;
      assert forall i | 0 <= i < |rest| :: rest[i] == (a + b)[i + 1];
      Product(l.qty, l.price);
      FilledNotional(rest, 0.0);
      WalkPast(rest, b, n - Times(l.qty, l.price));
      PositiveNotional(l, rest);
    }
  }

  lemma PositiveNotional(l: Level, rest: seq<Level>)
    requires l.price > 0.0 && l.qty > 0.0 && Positive(rest)
    ensures Notional([l] + rest) == Times(l.qty, l.price) + Notional(rest) > 0.0
  {
    FilledNotional(rest, 0.0);
    Product(l.qty, l.price);
    assert ([l] + rest)[1..] == rest;
  }

  /** What tells two listings of a tie apart: a probe of just the larger order. */
  lemma TieTells(before: seq<Level>, large: Level, small: Level, tail: seq<Level>) returns (n: real)
    requires large.price == small.price && large.qty > small.qty
    requires Positive(before + [large, small] + tail) && Positive(before + [small, large] + tail)
    ensures Walk(before + [large, small] + tail, n).consumed == |before| + 1
    ensures Walk(before + [small, large] + tail, n).consumed == |before| + 2
  {
    var a, b := [large, small] + tail, [small, large] + tail;
    var both := before + [large, small] + tail;
    assert both[|before|] == large && both[|before| + 1] == small;
    assert forall i | 0 <= i < |tail| :: tail[i] == both[|before| + 2 + i];
    n := Notional(before) + Times(large.qty, large.price);
    assert both == before + a;
    assert before + [small, large] + tail == before + b;
    TakesOne(large, small, tail);
    Product(large.qty, large.price);
    WalkPast(before, a, n);
    WalkPast(before, b, n);
  }

  lemma TakesOne(large: Level, small: Level, tail: seq<Level>)
    requires large.price == small.price > 0.0 && large.qty > small.qty > 0.0 && Positive(tail)
    ensures Positive([large, small] + tail) && Positive([small, large] + tail)
    ensures Walk([large, small] + tail, Times(large.qty, large.price)).consumed == 1
    ensures Walk([small, large] + tail, Times(large.qty, large.price)).consumed == 2
  {
    var a, b, n := [large, small] + tail, [small, large] + tail, Times(large.qty, large.price);
    var left := n - Times(small.qty, small.price);
    assert left == Times(large.qty - small.qty, large.price);
    Product(large.qty - small.qty, large.price);
    Product(large.qty, large.price);
    Product(small.qty, small.price);
    assert a[1..] == [small] + tail && b[1..] == [large] + tail;
    assert Walk([small] + tail, 0.0).consumed == 0;
    hide Times, Over;
    assert Walk([large] + tail, left).consumed == 1;
  }

  /** A row brought to the front of a listing. */
  lemma Fronted(orders: seq<Resting>, o: Resting) returns (rest: seq<Resting>)
    requires o in orders
    ensures multiset([o] + rest) == multiset(orders)
  {
    var j :| 0 <= j < |orders| && orders[j] == o;
    rest := orders[..j] + orders[j + 1..];
    assert orders == orders[..j] + [o] + orders[j + 1..];
  }

  lemma {:induction false} RowOfLevel(orders: seq<Resting>, want: Side, l: Level) returns (o: Resting)
    requires l in UsableLevels(orders, want)
    ensures o in orders && Usable(o, want) && l == Level(o.price, o.quantity)
  {
    if Usable(orders[0], want) && l == Level(orders[0].price, orders[0].quantity) {
      o := orders[0];
    } else {
      o := RowOfLevel(orders[1..], want, l);
    }
  }

  lemma FrontedLevels(o: Resting, rest: seq<Resting>, want: Side)
    requires Usable(o, want)
    ensures UsableLevels([o] + rest, want) == [Level(o.price, o.quantity)] + UsableLevels(rest, want)
  {
    assert ([o] + rest)[1..] == rest;
  }

  lemma FrontedSorted(side: Side, l: Level, levels: seq<Level>)
    ensures Sorted(side, [l] + levels) == Insert(side, l, Sorted(side, levels))
  {
    assert ([l] + levels)[1..] == levels;
  }

  lemma FrontedBook(o: Resting, rest: seq<Resting>, probe: Side)
    requires Usable(o, Opposite(probe))
    ensures Book([o] + rest, probe) == Insert(probe, Level(o.price, o.quantity), Book(rest, probe))
  {
    FrontedLevels(o, rest, Opposite(probe));
    FrontedSorted(probe, Level(o.price, o.quantity), UsableLevels(rest, Opposite(probe)));
    hide Sorted, UsableLevels, Insert;
  }

  lemma LevelOfBook(orders: seq<Resting>, probe: Side, l: Level) returns (o: Resting)
    requires l in Book(orders, probe)
    ensures o in orders && Usable(o, Opposite(probe)) && l == Level(o.price, o.quantity)
  {
    assert l in multiset(Sorted(probe, UsableLevels(orders, Opposite(probe))));
    assert l in UsableLevels(orders, Opposite(probe));
    o := RowOfLevel(orders, Opposite(probe), l);
  }

  lemma TwoFronted(orders: seq<Resting>, o: Resting, p: Resting) returns (rest: seq<Resting>)
    requires o in orders && p in orders && o != p
    ensures multiset([o] + ([p] + rest)) == multiset(orders)
    ensures multiset([p] + ([o] + rest)) == multiset(orders)
  {
    var others := Fronted(orders, o);
    assert p in multiset(orders) && p in [o] + others;
    assert p in others;
    rest := Fronted(others, p);
    assert multiset([p] + rest) == multiset{p} + multiset(rest);
    assert multiset([o] + rest) == multiset{o} + multiset(rest);
  }

  lemma BookOfTwo(o: Resting, p: Resting, rest: seq<Resting>, probe: Side) returns (k: nat)
    requires Usable(o, Opposite(probe)) && Usable(p, Opposite(probe)) && o.price == p.price
    ensures Lands(probe, Level(o.price, o.quantity), Book(rest, probe), k)
    ensures Book([o] + ([p] + rest), probe) ==
            Put(Book(rest, probe), k, [Level(o.price, o.quantity), Level(p.price, p.quantity)])
  {
    hide Book, Insert, Put, Lands;
    FrontedBook(o, [p] + rest, probe);
    FrontedBook(p, rest, probe);
    k := TwoInserted(probe, Level(o.price, o.quantity), Level(p.price, p.quantity), Book(rest, probe));
  }

  /** Two usable orders of different size at one price can be listed so that a probe counts them
      differently. */
  lemma TieIsCounted(orders: seq<Resting>, probe: Side, l: Level, m: Level)
    returns (a: seq<Resting>, b: seq<Resting>, n: real)
    requires l in Book(orders, probe) && m in Book(orders, probe) && l.price == m.price && l.qty > m.qty
    ensures multiset(a) == multiset(orders) && multiset(b) == multiset(orders)
    ensures Walk(Book(b, probe), n).consumed == Walk(Book(a, probe), n).consumed + 1
  {
    var o := LevelOfBook(orders, probe, l);
    var p := LevelOfBook(orders, probe, m);
    var rest := TwoFronted(orders, o, p);
    a, b := [o] + ([p] + rest), [p] + ([o] + rest);
    hide Book, Usable, Walk;
    var k := BookOfTwo(o, p, rest, probe);
    var j := BookOfTwo(p, o, rest, probe);
    LandsOnce(probe, l, m, Book(rest, probe), k, j);
    n := TieTells(Book(rest, probe)[..k], l, m, Book(rest, probe)[k..]);
  }

  /** The number of levels a probe reports consumed is a property of the book, for every probe, if
      and only if orders at one price have one size. */
  lemma CountIgnoresListingIff(orders: seq<Resting>, probe: Side)
    ensures CountIgnoresListing(orders, probe) <==> TiesAreEqual(Book(orders, probe))
  {
    var book := Book(orders, probe);
    if TiesAreEqual(book) {
      forall b, n | multiset(b) == multiset(orders)
        ensures Probe(b, probe, n).levelsConsumed == Probe(orders, probe, n).levelsConsumed
      {
        UsableLevelsOfPermutation(b, orders, Opposite(probe));
        SortedOnce(probe, book, Book(b, probe));
      }
    } else {
      var l, m :| l in book && m in book && l.price == m.price && l != m;
      var a, b, n;
      if l.qty > m.qty {
        a, b, n := TieIsCounted(orders, probe, l, m);
      } else {
        a, b, n := TieIsCounted(orders, probe, m, l);
      }
      assert Probe(a, probe, n).levelsConsumed != Probe(b, probe, n).levelsConsumed;
    }
  }

  /** Price impact: on one book the average price moves against the taker as the probe grows. */
  lemma PriceImpactIsMonotone(orders: seq<Resting>, probe: Side, n1: real, n2: real)
    requires 0.0 < n1 <= n2 && Book(orders, probe) != []
    ensures var f1, f2 := Walk(Book(orders, probe), n1), Walk(Book(orders, probe), n2);
            f1.qty > 0.0 && f2.qty > 0.0 && AsGood(probe, f1.notional / f1.qty, f2.notional / f2.qty)
  {
    var book := Book(orders, probe);
    WalkTakesSomething(book, n1);
    WalkTakesSomething(book, n2);
    var f1, f2 := Walk(book, n1), Walk(book, n2);
    LargerProbeNeverCheaper(probe, book, n1, n2);
    if probe.Buy? {
      RatioLe(f1.notional, f1.qty, f2.notional, f2.qty);
    } else {
      RatioLe(f2.notional, f2.qty, f1.notional, f1.qty);
    }
  }
}

/** A refresh or a purge of one ladder, one redis command at a time, with everybody else writing
    the same hashes in between: users place and cancel, the matcher removes what is filled and
    writes back what is left, other pairs go about their business. Nothing is assumed about when. */
module PaperCycle {
  import opened PaperRows

  /** What a cycle sets out to do. A purge is a refresh with no ladder to write or to name. */
  datatype Job = Job(pair: Pair, previous: seq<Id>, buys: seq<Order>, sells: seq<Order>)

  /** Where it stands: `next` of the named deletions done; about to read a hash; with `todo` left
      of what it read; `next` of the orders written; done; or broken off. */
  datatype Phase =
    | Naming(next: nat)
    | Reading(side: Side)
    | Deleting(side: Side, todo: set<Slot>)
    | Writing(next: nat)
    | Complete
    | Broken

  /** `touched` are the slots of synthetic orders that somebody else has written or removed. */
  datatype Books = Books(rows: Rows, phase: Phase, touched: set<Slot>)

  datatype Event =
    | Command(slot: Slot)                  // the next command of the cycle; `slot` is its choice among `todo`
    | Break(slot: Slot, landed: bool)      // the same command fails, carried out or not
    | Put(slot: Slot, row: Row)            // a user's order, or anything of another pair
    | Remove(slot: Slot)                   // a cancel or a fill
    | PutBack(slot: Slot, row: Row)        // the rest of a synthetic order

  // ---------------------------------------------------------------- the job as a program

  function Named(j: Job, i: nat): Slot
    requires i < 2 * |j.previous|
  {
    Slot(if i % 2 == 0 then Buy else Sell, j.pair, j.previous[i / 2])
  }

  function Size(j: Job): nat { |j.buys| + |j.sells| }

  function Ordered(j: Job, i: nat): Order
    requires i < Size(j)
  {
    if i < |j.buys| then j.buys[i] else j.sells[i - |j.buys|]
  }

  function Target(j: Job, i: nat): Slot
    requires i < Size(j)
  {
    SlotOf(if i < |j.buys| then Buy else Sell, j.pair, Ordered(j, i))
  }

  function Kept(j: Job): set<Id> { Ids(j.buys) + Ids(j.sells) }

  function ToName(j: Job, i: nat): Phase { if i < 2 * |j.previous| then Naming(i) else Reading(Buy) }

  function ToWrite(j: Job, i: nat): Phase { if i < Size(j) then Writing(i) else Complete }

  function ToDelete(j: Job, side: Side, todo: set<Slot>): Phase {
    if todo != {} then Deleting(side, todo) else if side == Buy then Reading(Sell) else ToWrite(j, 0)
  }

  predicate Ready(j: Job, b: Books, s: Slot) {
    match b.phase
    case Naming(i) => i < 2 * |j.previous| && s == Named(j, i)
    case Reading(_) => true
    case Deleting(_, todo) => s in todo
    case Writing(i) => i < Size(j) && s == Target(j, i)
    case Complete => false
    case Broken => false
  }

  /** What the next command does to the hashes. */
  function Effect(j: Job, b: Books, s: Slot): Rows
    requires Ready(j, b, s)
  {
    match b.phase
    case Naming(_) => b.rows - {s}
    case Reading(_) => b.rows
    case Deleting(_, _) => b.rows - {s}
    case Writing(i) => b.rows[s := RowOf(Ordered(j, i))]
  }

  function After(j: Job, b: Books, s: Slot): Phase
    requires Ready(j, b, s)
  {
    match b.phase
    case Naming(i) => ToName(j, i + 1)
    case Reading(side) => ToDelete(j, side, StaleSlots(b.rows, side, j.pair, Kept(j)))
    case Deleting(side, todo) => ToDelete(j, side, todo - {s})
    case Writing(i) => ToWrite(j, i + 1)
  }

  /** `names` are the ids that synthetic orders of the pair go by, past and present. Users draw
      their own. */
  predicate Enabled(j: Job, names: set<Id>, b: Books, e: Event) {
    match e
    case Command(s) => Ready(j, b, s)
    case Break(s, _) => Ready(j, b, s)
    case Put(s, row) => s.pair != j.pair || (!IsPaper(row) && s.field !in names)
    case Remove(_) => true
    case PutBack(s, row) => s.pair == j.pair && s.field in names && IsPaper(row) && row.id == s.field
  }

  function Step(j: Job, names: set<Id>, b: Books, e: Event): Books
    requires Enabled(j, names, b, e)
  {
    match e
    case Command(s) => b.(rows := Effect(j, b, s), phase := After(j, b, s))
    case Break(s, landed) => b.(rows := if landed then Effect(j, b, s) else b.rows, phase := Broken)
    case Put(s, row) => b.(rows := b.rows[s := row])
    case Remove(s) => b.(rows := b.rows - {s}, touched := b.touched + {s})
    case PutBack(s, row) => b.(rows := b.rows[s := row], touched := b.touched + {s})
  }

  predicate Allowed(j: Job, names: set<Id>, b: Books, es: seq<Event>)
    decreases |es|
  {
    es == [] || (Enabled(j, names, b, es[0]) && Allowed(j, names, Step(j, names, b, es[0]), es[1..]))
  }

  function Run(j: Job, names: set<Id>, b: Books, es: seq<Event>): Books
    requires Allowed(j, names, b, es)
    decreases |es|
  {
    if es == [] then b else Run(j, names, Step(j, names, b, es[0]), es[1..])
  }

  function Begin(j: Job, rows: Rows): Books { Books(rows, ToName(j, 0), {}) }

  /** The named deletions are those of either side, one for each id of the last ladder. */
  lemma NamesBothSides(j: Job, s: Slot)
    ensures (exists i :: 0 <= i < 2 * |j.previous| && Named(j, i) == s) <==> s.pair == j.pair && s.field in j.previous
  {
    if s.pair == j.pair && s.field in j.previous {
      var k :| 0 <= k < |j.previous| && j.previous[k] == s.field;
      assert Named(j, if s.side == Buy then 2 * k else 2 * k + 1) == s;
    }
  }

  /** A command that fails has done the whole of it or nothing, and nothing of the cycle follows. */
  lemma BreaksOff(j: Job, names: set<Id>, b: Books, s: Slot, landed: bool, x: Slot)
    requires Enabled(j, names, b, Command(s))
    ensures Enabled(j, names, b, Break(s, landed))
    ensures var after := Step(j, names, b, Break(s, landed));
            && after.rows == (if landed then Step(j, names, b, Command(s)).rows else b.rows)
            && !Enabled(j, names, after, Command(x)) && !Enabled(j, names, after, Break(x, landed))
  {}

  /** What anybody else writes lands, in its own slot, and the cycle stands where it stood. */
  lemma StrangerWrites(j: Job, names: set<Id>, b: Books, e: Event, x: Slot)
    requires Enabled(j, names, b, e) && !e.Command? && !e.Break?
    ensures var after := Step(j, names, b, e);
            && after.phase == b.phase
            && (x != e.slot ==> (x in after.rows <==> x in b.rows) && (x in b.rows ==> after.rows[x] == b.rows[x]))
            && (if e.Remove? then e.slot !in after.rows else Stored(after.rows, e.slot, e.row))
  {}

  // ---------------------------------------------------------------- ids

  /** The pair's synthetic orders are those under their names, each under its own id. */
  predicate Disciplined(j: Job, names: set<Id>, rows: Rows) {
    && (forall i | 0 <= i < |j.previous| :: j.previous[i] in names)
    && Kept(j) <= names
    && forall s | s in rows && s.pair == j.pair ::
         (IsPaper(rows[s]) <==> s.field in names) && (IsPaper(rows[s]) ==> rows[s].id == s.field)
  }

  /** No stored order goes by a new id yet. */
  predicate FreshIds(j: Job, rows: Rows) {
    forall s | s in PaperSlots(rows, j.pair) :: s.field !in Kept(j)
  }

  /** No two new orders of one side share an id. */
  predicate DistinctIds(j: Job) {
    && (forall i, k | 0 <= i < k < |j.buys| :: j.buys[i].id != j.buys[k].id)
    && (forall i, k | 0 <= i < k < |j.sells| :: j.sells[i].id != j.sells[k].id)
  }

  // ---------------------------------------------------------------- users are not disturbed

  /** Everything but the pair's synthetic orders. */
  function Others(j: Job, names: set<Id>, rows: Rows): Rows {
    map s | s in rows && !(s.pair == j.pair && s.field in names) :: rows[s]
  }

  /** The same events with no cycle among them. */
  function Undisturbed(j: Job, names: set<Id>, rows: Rows, es: seq<Event>): Rows
    decreases |es|
  {
    if es == [] then rows
    else
      var next := match es[0]
        case Put(s, row) => rows[s := row]
        case Remove(s) => rows - {s}
        case _ => rows;
      Undisturbed(j, names, next, es[1..])
  }

  /** Every slot the cycle has yet to delete or write is a synthetic order's. */
  predicate OnTarget(j: Job, names: set<Id>, b: Books) {
    && (forall i | 0 <= i < |j.previous| :: j.previous[i] in names)
    && Kept(j) <= names
    && (forall s | s in b.rows && s.pair == j.pair && IsPaper(b.rows[s]) :: s.field in names)
    && (b.phase.Deleting? ==> forall s | s in b.phase.todo :: s.pair == j.pair && s.field in names)
  }

  lemma TargetIsKept(j: Job, i: nat)
    requires i < Size(j)
    ensures Target(j, i).pair == j.pair && Target(j, i).field in Kept(j)
  {}

  lemma CommandIsOnTarget(j: Job, names: set<Id>, b: Books, s: Slot)
    requires OnTarget(j, names, b) && Ready(j, b, s)
    ensures Others(j, names, Effect(j, b, s)) == Others(j, names, b.rows)
    ensures OnTarget(j, names, b.(rows := Effect(j, b, s), phase := After(j, b, s)))
    ensures OnTarget(j, names, b.(rows := Effect(j, b, s), phase := Broken))
  {
    if b.phase.Writing? {
      TargetIsKept(j, b.phase.next);
    }
  }

  lemma StepIsOnTarget(j: Job, names: set<Id>, b: Books, e: Event)
    requires OnTarget(j, names, b) && Enabled(j, names, b, e)
    ensures OnTarget(j, names, Step(j, names, b, e))
    ensures Others(j, names, Step(j, names, b, e).rows) == Undisturbed(j, names, Others(j, names, b.rows), [e])
  {
    if e.Command? || e.Break? {
      CommandIsOnTarget(j, names, b, e.slot);
    }
    assert [e][1..] == [];
  }

  lemma UndisturbedFirst(j: Job, names: set<Id>, rows: Rows, es: seq<Event>)
    requires es != []
    ensures Undisturbed(j, names, rows, es) == Undisturbed(j, names, Undisturbed(j, names, rows, [es[0]]), es[1..])
  {
    assert [es[0]][1..] == [];
  }

  /** Nobody else's order moves: over every interleaving, broken off or not, everything but the pair's
      synthetic orders is at every moment exactly what it would be had the cycle never run. */
  lemma {:induction false} UsersAreUndisturbed(j: Job, names: set<Id>, b: Books, es: seq<Event>)
    requires OnTarget(j, names, b) && Allowed(j, names, b, es)
    ensures Others(j, names, Run(j, names, b, es).rows) == Undisturbed(j, names, Others(j, names, b.rows), es)
    decreases |es|
  {
    hide Step, Enabled, OnTarget, Others;
    if es != [] {
      StepIsOnTarget(j, names, b, es[0]);
      UndisturbedFirst(j, names, Others(j, names, b.rows), es);
      UsersAreUndisturbed(j, names, Step(j, names, b, es[0]), es[1..]);
    }
  }

  // ---------------------------------------------------------------- what a complete cycle leaves

  /** A new order, among the first `n`, belongs at this slot. */
  predicate WrittenBy(j: Job, n: nat, s: Slot)
    requires n <= Size(j)
  {
    exists i :: 0 <= i < n && Target(j, i) == s
  }

  predicate Holds(rows: Rows, s: Slot) { s in rows && IsPaper(rows[s]) }

  /** What is known of a slot nobody else has touched, phase by phase. */
  predicate Known(j: Job, b: Books, s: Slot)
    requires b.phase.Writing? ==> b.phase.next <= Size(j)
  {
    match b.phase
    case Naming(_) => Holds(b.rows, s) ==> s.field !in Kept(j)
    case Reading(side) => Holds(b.rows, s) ==> s.field !in Kept(j) && (side == Sell ==> s.side == Sell)
    case Deleting(side, todo) =>
      Holds(b.rows, s) ==> && s.field !in Kept(j)
                           && (s.side == side ==> s in todo)
                           && (side == Sell ==> s.side == Sell)
    case Writing(n) => AsBuilt(j, b.rows, n, s)
    case Complete => AsBuilt(j, b.rows, Size(j), s)
    case Broken => true
  }

  /** Of the first `n` new orders and no other. */
  predicate AsBuilt(j: Job, rows: Rows, n: nat, s: Slot)
    requires n <= Size(j)
  {
    && (Holds(rows, s) <==> WrittenBy(j, n, s))
    && forall i | 0 <= i < n && Target(j, i) == s :: Shows(rows, s, Ordered(j, i))
  }

  ghost predicate OnCourse(j: Job, names: set<Id>, b: Books) {
    && Disciplined(j, names, b.rows)
    && (b.phase.Writing? ==> b.phase.next <= Size(j))
    && (b.phase.Deleting? ==> forall s | s in b.phase.todo :: s.pair == j.pair && s.field in names)
    && forall s: Slot | s.pair == j.pair && s !in b.touched :: Known(j, b, s)
  }

  lemma CoursedIsOnTarget(j: Job, names: set<Id>, b: Books)
    requires OnCourse(j, names, b)
    ensures OnTarget(j, names, b)
  {}

  lemma TargetsApart(j: Job, i: nat, k: nat)
    requires DistinctIds(j) && i < k < Size(j)
    ensures Target(j, i) != Target(j, k)
  {}

  lemma TurnToWrite(j: Job, rows: Rows, s: Slot)
    requires !Holds(rows, s)
    ensures AsBuilt(j, rows, 0, s)
  {}

  lemma WriteOne(j: Job, rows: Rows, n: nat, s: Slot)
    requires n < Size(j) && DistinctIds(j) && AsBuilt(j, rows, n, s)
    ensures AsBuilt(j, rows[Target(j, n) := RowOf(Ordered(j, n))], n + 1, s)
  {
    var t := Target(j, n);
    var after := rows[t := RowOf(Ordered(j, n))];
    forall i | 0 <= i < n ensures Target(j, i) != t {
      TargetsApart(j, i, n);
    }
    if s == t {
      assert WrittenBy(j, n + 1, s);
    } else {
      assert WrittenBy(j, n + 1, s) <==> WrittenBy(j, n, s);
    }
  }

  lemma StepKeepsDiscipline(j: Job, names: set<Id>, b: Books, e: Event)
    requires OnCourse(j, names, b) && Enabled(j, names, b, e)
    ensures Disciplined(j, names, Step(j, names, b, e).rows)
  {
    if b.phase.Writing? && b.phase.next < Size(j) {
      TargetIsKept(j, b.phase.next);
    }
  }

  lemma StaleIs(rows: Rows, side: Side, p: Pair, keep: set<Id>, s: Slot)
    ensures s in StaleSlots(rows, side, p, keep) <==>
            s in rows && s.side == side && s.pair == p && IsPaper(rows[s]) && rows[s].id !in keep
  {}

  lemma ReadingKnows(j: Job, names: set<Id>, b: Books, s0: Slot, s: Slot)
    requires Disciplined(j, names, b.rows) && b.phase.Reading? && Known(j, b, s) && s.pair == j.pair
    ensures Known(j, b.(phase := After(j, b, s0)), s)
  {
    StaleIs(b.rows, b.phase.side, j.pair, Kept(j), s);
    assert s.side.Buy? || s.side.Sell?;
    if !Holds(b.rows, s) {
      TurnToWrite(j, b.rows, s);
    }
    hide StaleSlots, AsBuilt, Kept;
  }

  lemma DeletingKnows(j: Job, b: Books, s0: Slot, s: Slot)
    requires b.phase.Deleting? && Ready(j, b, s0) && Known(j, b, s) && s.pair == j.pair
    ensures Known(j, b.(rows := Effect(j, b, s0), phase := After(j, b, s0)), s)
  {
    var after := b.rows - {s0};
    assert s.side.Buy? || s.side.Sell?;
    if !Holds(after, s) {
      TurnToWrite(j, after, s);
    } else {
      assert Holds(b.rows, s) && s != s0;
    }
    hide AsBuilt, Kept;
  }

  /** A command keeps what is known of every slot. */
  lemma CommandKnows(j: Job, names: set<Id>, b: Books, s0: Slot, s: Slot)
    requires OnCourse(j, names, b) && Ready(j, b, s0) && Known(j, b, s) && s.pair == j.pair && DistinctIds(j)
    ensures Known(j, b.(rows := Effect(j, b, s0), phase := After(j, b, s0)), s)
  {
    match b.phase
    case Naming(_) =>
    case Reading(_) => ReadingKnows(j, names, b, s0, s);
    case Deleting(_, _) => DeletingKnows(j, b, s0, s);
    case Writing(n) => WriteOne(j, b.rows, n, s);
  }

  lemma TodoOnTarget(j: Job, names: set<Id>, b: Books, e: Event)
    requires OnCourse(j, names, b) && Enabled(j, names, b, e)
    ensures var after := Step(j, names, b, e);
            && (after.phase.Writing? ==> after.phase.next <= Size(j))
            && (after.phase.Deleting? ==> forall s | s in after.phase.todo :: s.pair == j.pair && s.field in names)
  {
    CoursedIsOnTarget(j, names, b);
    StepIsOnTarget(j, names, b, e);
    hide Others, StaleSlots, Kept;
  }

  /** A stranger's write or removal keeps what is known of every slot it has not touched. */
  lemma StrangerKnows(j: Job, names: set<Id>, b: Books, e: Event, s: Slot)
    requires OnCourse(j, names, b) && Enabled(j, names, b, e) && (e.Put? || e.Remove? || e.PutBack?)
    requires s.pair == j.pair && s !in Step(j, names, b, e).touched
    ensures Known(j, Step(j, names, b, e), s)
  {
    assert Known(j, b, s);
    if e.Put? && s == e.slot {
      assert !Holds(b.rows, s) && s.field !in names;
      assert forall i | 0 <= i < Size(j) :: Target(j, i) != s by {
        forall i | 0 <= i < Size(j) ensures Target(j, i) != s {
          TargetIsKept(j, i);
        }
      }
    }
  }

  lemma StepKeepsCourse(j: Job, names: set<Id>, b: Books, e: Event)
    requires OnCourse(j, names, b) && Enabled(j, names, b, e) && DistinctIds(j)
    ensures OnCourse(j, names, Step(j, names, b, e))
  {
    var after := Step(j, names, b, e);
    StepKeepsDiscipline(j, names, b, e);
    TodoOnTarget(j, names, b, e);
    forall s: Slot | s.pair == j.pair && s !in after.touched ensures Known(j, after, s) {
      if e.Command? {
        CommandKnows(j, names, b, e.slot, s);
      } else if !e.Break? {
        StrangerKnows(j, names, b, e, s);
      }
    }
    hide Disciplined, Known;
  }

  lemma {:induction false} RunKeepsCourse(j: Job, names: set<Id>, b: Books, es: seq<Event>)
    requires OnCourse(j, names, b) && Allowed(j, names, b, es) && DistinctIds(j)
    ensures OnCourse(j, names, Run(j, names, b, es))
    decreases |es|
  {
    hide Step, Enabled, OnCourse;
    if es != [] {
      StepKeepsCourse(j, names, b, es[0]);
      RunKeepsCourse(j, names, Step(j, names, b, es[0]), es[1..]);
    }
  }

  lemma BeginsOnCourse(j: Job, names: set<Id>, rows: Rows)
    requires Disciplined(j, names, rows) && FreshIds(j, rows)
    ensures OnCourse(j, names, Begin(j, rows))
  {
    forall s: Slot | s.pair == j.pair ensures Known(j, Begin(j, rows), s) {
      if Holds(rows, s) {
        assert s in PaperSlots(rows, j.pair);
      }
    }
  }

  lemma NewIsWritten(j: Job, s: Slot)
    ensures IsNew(j.pair, j.buys, j.sells, s) <==> WrittenBy(j, Size(j), s)
  {
    if IsNew(j.pair, j.buys, j.sells, s) {
      if s.side == Buy {
        var i :| 0 <= i < |j.buys| && j.buys[i].id == s.field;
        assert Target(j, i) == s;
      } else {
        var i :| 0 <= i < |j.sells| && j.sells[i].id == s.field;
        assert s.side.Sell?;
        assert Target(j, |j.buys| + i) == s;
      }
    }
  }

  /** A cycle that completes, whoever else was writing: at every slot of the pair that nobody else
      has touched there is a synthetic order exactly if it is one of the new orders, as built. What a
      complete purge leaves has been put back since. */
  lemma CompletedCycle(j: Job, names: set<Id>, rows: Rows, es: seq<Event>)
    requires Disciplined(j, names, rows) && FreshIds(j, rows) && DistinctIds(j)
    requires Allowed(j, names, Begin(j, rows), es) && Run(j, names, Begin(j, rows), es).phase == Complete
    ensures var b := Run(j, names, Begin(j, rows), es);
            && (forall s: Slot | s.pair == j.pair && s !in b.touched ::
                  Holds(b.rows, s) <==> IsNew(j.pair, j.buys, j.sells, s))
            && (forall i | 0 <= i < Size(j) && Target(j, i) !in b.touched ::
                  Shows(b.rows, Target(j, i), Ordered(j, i)))
  {
    BeginsOnCourse(j, names, rows);
    RunKeepsCourse(j, names, Begin(j, rows), es);
    var b := Run(j, names, Begin(j, rows), es);
    hide Run, Allowed, FreshIds, Disciplined;
    forall s: Slot | s.pair == j.pair && s !in b.touched
      ensures Holds(b.rows, s) <==> IsNew(j.pair, j.buys, j.sells, s)
    {
      assert Known(j, b, s);
      NewIsWritten(j, s);
    }
    forall i | 0 <= i < Size(j) && Target(j, i) !in b.touched
      ensures Shows(b.rows, Target(j, i), Ordered(j, i))
    {
      TargetIsKept(j, i);
      assert Known(j, b, Target(j, i));
    }
  }

  /** With users placing and cancelling at will, and nobody touching synthetic orders, a completed
      refresh is an exact replacement. */
  lemma CompletedRefreshIsExact(j: Job, names: set<Id>, rows: Rows, es: seq<Event>)
    requires Disciplined(j, names, rows) && FreshIds(j, rows) && DistinctIds(j)
    requires Allowed(j, names, Begin(j, rows), es) && Run(j, names, Begin(j, rows), es).phase == Complete
    requires forall s | s in Run(j, names, Begin(j, rows), es).touched && s.pair == j.pair :: s.field !in names
    ensures LadderIs(Run(j, names, Begin(j, rows), es).rows, j.pair, j.buys, j.sells)
  {
    CompletedCycle(j, names, rows, es);
    var b := Run(j, names, Begin(j, rows), es);
    BeginsOnCourse(j, names, rows);
    RunKeepsCourse(j, names, Begin(j, rows), es);
    assert Disciplined(j, names, b.rows);
    hide Run, Allowed, OnCourse;
    forall i | 0 <= i < Size(j) ensures Shows(b.rows, Target(j, i), Ordered(j, i)) {
      TargetIsKept(j, i);
    }
    forall i | 0 <= i < |j.buys| ensures Shows(b.rows, SlotOf(Buy, j.pair, j.buys[i]), j.buys[i]) {
      assert Ordered(j, i) == j.buys[i];
    }
    forall i | 0 <= i < |j.sells| ensures Shows(b.rows, SlotOf(Sell, j.pair, j.sells[i]), j.sells[i]) {
      assert Ordered(j, |j.buys| + i) == j.sells[i];
    }
    forall s | s in PaperSlots(b.rows, j.pair) ensures IsNew(j.pair, j.buys, j.sells, s) {
      assert Holds(b.rows, s) && s.field in names;
    }
  }

  predicate Alone(es: seq<Event>) { forall e | e in es :: e.Command? }

  lemma {:induction false} AloneTouchesNothing(j: Job, names: set<Id>, b: Books, es: seq<Event>)
    requires Allowed(j, names, b, es) && Alone(es)
    ensures Run(j, names, b, es).touched == b.touched
    ensures forall rows :: Undisturbed(j, names, rows, es) == rows
    decreases |es|
  {
    if es != [] {
      assert es[0] in es;
      AloneTouchesNothing(j, names, Step(j, names, b, es[0]), es[1..]);
    }
  }

  /** With nobody else writing, in whatever order the hashes list their fields, the commands leave
      what the refresh as a whole stands for. */
  lemma AloneIsRefreshed(j: Job, names: set<Id>, rows: Rows, es: seq<Event>)
    requires Disciplined(j, names, rows) && FreshIds(j, rows) && DistinctIds(j) && Alone(es)
    requires Allowed(j, names, Begin(j, rows), es) && Run(j, names, Begin(j, rows), es).phase == Complete
    ensures Run(j, names, Begin(j, rows), es).rows == Refreshed(rows, j.pair, j.previous, j.buys, j.sells)
  {
    var b, r := Run(j, names, Begin(j, rows), es), Refreshed(rows, j.pair, j.previous, j.buys, j.sells);
    AloneTouchesNothing(j, names, Begin(j, rows), es);
    CompletedRefreshIsExact(j, names, rows, es);
    BeginsOnCourse(j, names, rows);
    RunKeepsCourse(j, names, Begin(j, rows), es);
    CoursedIsOnTarget(j, names, Begin(j, rows));
    UsersAreUndisturbed(j, names, Begin(j, rows), es);
    assert Others(j, names, b.rows) == Others(j, names, rows);
    assert Disciplined(j, names, b.rows);
    FreshRefresh(j, names, rows);
    SameBooks(j, names, rows, b.rows, r);
  }

  lemma FreshRefresh(j: Job, names: set<Id>, rows: Rows)
    requires Disciplined(j, names, rows) && FreshIds(j, rows) && DistinctIds(j)
    ensures var r := Refreshed(rows, j.pair, j.previous, j.buys, j.sells);
            LadderIs(r, j.pair, j.buys, j.sells) && UsersUntouched(rows, r, j.pair)
  {
    forall s | s in rows && s.pair == j.pair ensures s.field !in Kept(j) {
      if IsPaper(rows[s]) {
        assert s in PaperSlots(rows, j.pair);
      }
    }
    hide Refreshed, LadderIs, UsersUntouched;
    FreshIdsReplaceExactly(rows, j.pair, j.previous, j.buys, j.sells);
  }

  /** The same ladder among the same other orders. */
  lemma SameBooks(j: Job, names: set<Id>, rows: Rows, x: Rows, y: Rows)
    requires Disciplined(j, names, rows) && Disciplined(j, names, x) && Others(j, names, x) == Others(j, names, rows)
    requires LadderIs(x, j.pair, j.buys, j.sells) && LadderIs(y, j.pair, j.buys, j.sells)
    requires UsersUntouched(rows, y, j.pair)
    ensures x == y
  {
    forall s: Slot ensures (s in x <==> s in y) && (s in x ==> x[s] == y[s]) {
      SameAt(j, names, rows, x, y, s);
    }
  }

  lemma SameAt(j: Job, names: set<Id>, rows: Rows, x: Rows, y: Rows, s: Slot)
    requires Disciplined(j, names, rows) && Disciplined(j, names, x) && Others(j, names, x) == Others(j, names, rows)
    requires LadderIs(x, j.pair, j.buys, j.sells) && LadderIs(y, j.pair, j.buys, j.sells)
    requires UsersUntouched(rows, y, j.pair)
    ensures (s in x <==> s in y) && (s in x ==> x[s] == y[s])
  {
    if IsNew(j.pair, j.buys, j.sells, s) {
      NewIsStored(j, x, y, s);
    } else {
      assert s !in PaperSlots(x, j.pair) && s !in PaperSlots(y, j.pair);
      assert s in Others(j, names, x) <==> s in Others(j, names, rows);
      if s in y {
        assert Stored(rows, s, y[s]);
      }
      if s in rows && s !in PaperSlots(rows, j.pair) {
        assert Stored(y, s, rows[s]);
      }
    }
  }

  lemma NewIsStored(j: Job, x: Rows, y: Rows, s: Slot)
    requires IsNew(j.pair, j.buys, j.sells, s)
    requires LadderIs(x, j.pair, j.buys, j.sells) && LadderIs(y, j.pair, j.buys, j.sells)
    ensures s in x && s in y && x[s] == y[s]
  {
    var own := if s.side == Buy then j.buys else j.sells;
    assert s.side.Buy? || s.side.Sell?;
    var i :| 0 <= i < |own| && own[i].id == s.field;
    assert s == SlotOf(s.side, j.pair, own[i]);
    assert Shows(x, s, own[i]) && Shows(y, s, own[i]);
  }
}

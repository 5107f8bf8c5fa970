/** The order-book publisher: one build per pair at a time, a burst of triggers collapsed into
    one follow-up, and sequence numbers drawn from a counter that REST reads share. Every
    stretch of code between two awaits is one step, and steps interleave freely. */
module Publisher {
  import opened Options

  type Pair = string

  type Kind = string

  /** What is broadcast: a numbered book of a known pair, or the "no pair" notice. */
  datatype Payload = Payload(seqNo: nat, paired: bool, kind: Kind)

  /** How far a publishing run has come with its current build. */
  datatype Task = Looking(kind: Kind) | Drawn(kind: Kind, seqNo: nat) | Built(payload: Payload)

  /** Everything the publisher holds for one pair, and what it has broadcast. `result` is what the
      run's promise resolves with when the run ends: every caller that found it in flight awaits it. */
  datatype Channel = Channel(counter: nat, inFlight: bool, pending: Option<Kind>, tasks: map<nat, Task>,
                             next: nat, emitted: seq<Payload>, result: Option<Payload>)

  const SILENT := Channel(0, false, None, map[], 0, [], None)

  datatype Event =
    | Trigger(kind: Kind)   // a depth event, or anything else that asks for a publish
    | NoPair(id: nat)       // the build finds no pair document
    | Draw(id: nat)         // the build takes the next sequence number
    | Finish(id: nat, healthy: bool)  // the build returns its payload, or an empty one
    | Deliver(id: nat)      // the payload is broadcast, and the loop goes round or ends
    | Fail(id: nat)         // anything throws
    | RestDraw              // a REST read takes the next sequence number

  predicate Enabled(c: Channel, e: Event) {
    match e
    case Trigger(_) => true
    case NoPair(id) => id in c.tasks && c.tasks[id].Looking?
    case Draw(id) => id in c.tasks && c.tasks[id].Looking?
    case Finish(id, _) => id in c.tasks && c.tasks[id].Drawn?
    case Deliver(id) => id in c.tasks && c.tasks[id].Built?
    case Fail(id) => id in c.tasks
    case RestDraw => true
  }

  function Step(c: Channel, e: Event): Channel
    requires Enabled(c, e)
  {
    match e
    case Trigger(kind) =>
      if c.inFlight then c.(pending := Some(kind))
      else c.(inFlight := true, pending := None, tasks := c.tasks[c.next := Looking(kind)], next := c.next + 1,
              result := None)
    case NoPair(id) =>
      c.(tasks := c.tasks[id := Built(Payload(0, false, "SNAPSHOT"))])
    case Draw(id) =>
      c.(counter := c.counter + 1, tasks := c.tasks[id := Drawn(c.tasks[id].kind, c.counter + 1)])
    case Finish(id, healthy) =>
      var kind := if healthy then c.tasks[id].kind else "SNAPSHOT";
      c.(tasks := c.tasks[id := Built(Payload(c.tasks[id].seqNo, true, kind))])
    case Deliver(id) =>
      var payload := c.tasks[id].payload;
      var sent := c.(emitted := c.emitted + [payload], pending := None, result := Some(payload));
      if c.pending.Some? then sent.(tasks := c.tasks[id := Looking(c.pending.value)])
      else sent.(tasks := c.tasks - {id}, inFlight := false)
    case Fail(id) =>
      c.(tasks := c.tasks - {id}, inFlight := false, pending := None,
         result := if c.tasks[id].Built? then Some(c.tasks[id].payload) else c.result)
    case RestDraw =>
      c.(counter := c.counter + 1)
  }

  /** Does this step start a publishing build? */
  predicate Starts(c: Channel, e: Event) {
    (e.Trigger? && !c.inFlight) || (e.Deliver? && c.pending.Some?)
  }

  predicate Legal(c: Channel, es: seq<Event>)
    decreases |es|, 0
  {
    es == [] || (Legal(c, es[..|es| - 1]) && Enabled(Run(c, es[..|es| - 1]), es[|es| - 1]))
  }

  function Run(c: Channel, es: seq<Event>): Channel
    requires Legal(c, es)
    decreases |es|, 1
  {
    if es == [] then c else Step(Run(c, es[..|es| - 1]), es[|es| - 1])
  }

  // ---------------------------------------------------------------- what every step keeps

  /** A number that a build holds but has not broadcast. */
  predicate Holds(t: Task, n: nat) {
    match t
    case Looking(_) => false
    case Drawn(_, seqNo) => seqNo == n
    case Built(payload) => payload.paired && payload.seqNo == n
  }

  predicate SingleFlight(c: Channel) {
    && (c.inFlight <==> c.tasks != map[])
    && (forall i, j | i in c.tasks && j in c.tasks :: i == j)
    && (c.pending.Some? ==> c.inFlight)
  }

  predicate Ascending(sent: seq<Payload>) {
    forall i, j | 0 <= i < j < |sent| && sent[i].paired && sent[j].paired :: sent[i].seqNo < sent[j].seqNo
  }

  predicate Below(sent: seq<Payload>, n: nat) {
    forall i | 0 <= i < |sent| && sent[i].paired :: sent[i].seqNo < n
  }

  /** A build's notes that are fit to be kept: a payload is numbered when it has a pair, and a held
      number is fresh. */
  ghost predicate TaskFits(t: Task, counter: nat, sent: seq<Payload>) {
    && (t.Built? ==> (t.payload.paired <==> t.payload.seqNo > 0))
    && (forall n: nat | Holds(t, n) :: 0 < n <= counter && Below(sent, n))
  }

  ghost predicate Numbered(c: Channel) {
    && Ascending(c.emitted)
    && Below(c.emitted, c.counter + 1)
    && (forall i | 0 <= i < |c.emitted| :: c.emitted[i].paired <==> c.emitted[i].seqNo > 0)
    && (forall i | i in c.tasks :: TaskFits(c.tasks[i], c.counter, c.emitted))
  }

  ghost predicate Sound(c: Channel) { SingleFlight(c) && Numbered(c) }

  lemma LastTask(c: Channel, id: nat)
    requires SingleFlight(c) && id in c.tasks
    ensures c.tasks - {id} == map[] && c.inFlight
  {
    assert (c.tasks - {id}).Keys == {};
  }

  lemma FlightStep(c: Channel, e: Event)
    requires SingleFlight(c) && Enabled(c, e)
    ensures SingleFlight(Step(c, e))
  {
    var after := Step(c, e);
    match e
    case Trigger(_) =>
      assert c.next in after.tasks || c.inFlight;
    case RestDraw =>
    case Fail(id) =>
      LastTask(c, id);
    case Deliver(id) =>
      LastTask(c, id);
      assert c.pending.Some? ==> id in after.tasks;
    case _ =>
      assert e.id in after.tasks;
  }

  lemma BelowMore(sent: seq<Payload>, n: nat, m: nat)
    requires Below(sent, n) && n <= m
    ensures Below(sent, m)
  {}

  lemma FitsMore(t: Task, counter: nat, sent: seq<Payload>)
    requires TaskFits(t, counter, sent)
    ensures TaskFits(t, counter + 1, sent)
  {
    hide Below;
  }

  /** A number that has just been drawn is above everything broadcast. */
  lemma DrawFits(kind: Kind, counter: nat, sent: seq<Payload>)
    requires Below(sent, counter + 1)
    ensures TaskFits(Drawn(kind, counter + 1), counter + 1, sent)
  {
    hide Below;
  }

  lemma FinishFits(t: Task, kind: Kind, counter: nat, sent: seq<Payload>)
    requires t.Drawn? && TaskFits(t, counter, sent)
    ensures TaskFits(Built(Payload(t.seqNo, true, kind)), counter, sent)
  {
    hide Below;
    assert Holds(t, t.seqNo);
  }

  lemma NoticeFits(kind: Kind, counter: nat, sent: seq<Payload>)
    ensures TaskFits(Built(Payload(0, false, kind)), counter, sent)
    ensures TaskFits(Looking(kind), counter, sent)
  {}

  /** What is delivered keeps the order, and is below the counter's next number. */
  lemma DeliverOrders(t: Task, counter: nat, sent: seq<Payload>)
    requires t.Built? && TaskFits(t, counter, sent) && Ascending(sent) && Below(sent, counter + 1)
    ensures Ascending(sent + [t.payload]) && Below(sent + [t.payload], counter + 1)
  {
    if t.payload.paired {
      assert Holds(t, t.payload.seqNo);
    }
  }

  /** A drawn number is above everything broadcast, and is the only one held. */
  lemma NumberStep(c: Channel, e: Event)
    requires SingleFlight(c) && Numbered(c) && Enabled(c, e)
    ensures Numbered(Step(c, e))
  {
    hide TaskFits, Ascending, Below, Holds;
    BelowMore(c.emitted, c.counter + 1, c.counter + 2);
    forall kind: Kind ensures TaskFits(Looking(kind), c.counter, c.emitted) {
      NoticeFits(kind, c.counter, c.emitted);
    }
    match e
    case Trigger(_) =>
    case NoPair(id) =>
      NoticeFits("SNAPSHOT", c.counter, c.emitted);
    case Draw(id) =>
      DrawFits(c.tasks[id].kind, c.counter, c.emitted);
      LastTask(c, id);
    case Finish(id, healthy) =>
      FinishFits(c.tasks[id], if healthy then c.tasks[id].kind else "SNAPSHOT", c.counter, c.emitted);
    case Deliver(id) =>
      DeliverOrders(c.tasks[id], c.counter, c.emitted);
      TaskFitsPayload(c.tasks[id], c.counter, c.emitted);
      LastTask(c, id);
      if c.pending.Some? {
        NoticeFits(c.pending.value, c.counter, c.emitted + [c.tasks[id].payload]);
      }
    case Fail(id) =>
      LastTask(c, id);
    case RestDraw =>
      forall i | i in c.tasks ensures TaskFits(c.tasks[i], c.counter + 1, c.emitted) {
        FitsMore(c.tasks[i], c.counter, c.emitted);
      }
  }

  lemma TaskFitsPayload(t: Task, counter: nat, sent: seq<Payload>)
    requires TaskFits(t, counter, sent) && t.Built?
    ensures t.payload.paired <==> t.payload.seqNo > 0
  {}

  lemma {:induction false} RunKeepsSound(c: Channel, es: seq<Event>)
    requires Sound(c) && Legal(c, es)
    ensures Sound(Run(c, es))
  {
    if es != [] {
      RunKeepsSound(c, es[..|es| - 1]);
      FlightStep(Run(c, es[..|es| - 1]), es[|es| - 1]);
      NumberStep(Run(c, es[..|es| - 1]), es[|es| - 1]);
    }
  }

  /** However triggers, builds, failures and REST reads interleave: no two publishing builds of a
      pair are ever in flight, and the numbered payloads go out in strictly increasing order. The
      "no pair" notices, and they alone, carry 0. */
  lemma PublishesInOrder(es: seq<Event>)
    requires Legal(SILENT, es)
    ensures var c := Run(SILENT, es);
            && |c.tasks| <= 1
            && Ascending(c.emitted)
            && forall i | 0 <= i < |c.emitted| :: c.emitted[i].paired <==> c.emitted[i].seqNo > 0
  {
    RunKeepsSound(SILENT, es);
    var c := Run(SILENT, es);
    if c.tasks != map[] {
      var i :| i in c.tasks;
      assert c.tasks.Keys == {i};
      assert |c.tasks| == |c.tasks.Keys|;
    }
  }

  // ---------------------------------------------------------------- no trigger is lost

  lemma {:induction false} PrefixLegal(c: Channel, es: seq<Event>, i: nat)
    requires Legal(c, es) && i <= |es|
    ensures Legal(c, es[..i])
  {
    if i < |es| {
      assert es[..|es| - 1][..i] == es[..i];
      PrefixLegal(c, es[..|es| - 1], i);
    } else {
      assert es[..i] == es;
    }
  }

  /** The state the event at `i` finds. */
  function Before(c: Channel, es: seq<Event>, i: nat): Channel
    requires Legal(c, es) && i < |es|
  {
    PrefixLegal(c, es, i);
    Run(c, es[..i])
  }

  predicate StartsAt(c: Channel, es: seq<Event>, i: nat)
    requires Legal(c, es) && i < |es|
  {
    Starts(Before(c, es, i), es[i])
  }

  /** Another trigger, a new build or a failure. */
  predicate Overtakes(c: Channel, es: seq<Event>, j: nat)
    requires Legal(c, es) && j < |es|
  {
    es[j].Trigger? || es[j].Fail? || StartsAt(c, es, j)
  }

  /** The trigger at `i` found a build in flight, and since then there has been no other trigger, no
      new build and no failure. */
  predicate Waits(c: Channel, es: seq<Event>, i: nat, kind: Kind)
    requires Legal(c, es) && i < |es|
  {
    && es[i] == Trigger(kind)
    && !StartsAt(c, es, i)
    && forall j | i < j < |es| :: !Overtakes(c, es, j)
  }

  lemma BeforeOfInit(c: Channel, es: seq<Event>, i: nat)
    requires Legal(c, es) && i < |es| - 1
    ensures Legal(c, es[..|es| - 1]) && es[..|es| - 1][i] == es[i]
    ensures Before(c, es[..|es| - 1], i) == Before(c, es, i)
    ensures StartsAt(c, es[..|es| - 1], i) <==> StartsAt(c, es, i)
  {
    assert es[..|es| - 1][..i] == es[..i];
  }

  lemma WaitsOfInit(c: Channel, es: seq<Event>, i: nat, kind: Kind)
    requires Legal(c, es) && i < |es| - 1
    ensures Legal(c, es[..|es| - 1])
    ensures Waits(c, es, i, kind) <==> Waits(c, es[..|es| - 1], i, kind) && !Overtakes(c, es, |es| - 1)
  {
    var n := |es| - 1;
    var init := es[..n];
    BeforeOfInit(c, es, i);
    forall j: nat | j < n ensures Overtakes(c, init, j) <==> Overtakes(c, es, j) {
      BeforeOfInit(c, es, j);
    }
    hide Overtakes, StartsAt, Legal, Run, Before, Step;
    if Waits(c, init, i, kind) && !Overtakes(c, es, n) {
      forall j | i < j < |es| ensures !Overtakes(c, es, j) {
        if j < n {
          assert Overtakes(c, init, j) <==> Overtakes(c, es, j);
        }
      }
    }
  }

  lemma PendingStep(c: Channel, e: Event, kind: Kind)
    requires SingleFlight(c) && Enabled(c, e)
    ensures Step(c, e).pending == Some(kind) <==>
            (e == Trigger(kind) && c.inFlight)
            || (c.pending == Some(kind) && !(e.Trigger? || e.Fail? || Starts(c, e)))
  {}

  /** The pending mark is exactly the latest trigger that neither a build nor a failure has
      overtaken, with the kind that trigger asked for. */
  lemma {:induction false} PendingIff(c: Channel, es: seq<Event>, kind: Kind)
    requires c.pending.None? && Sound(c) && Legal(c, es)
    ensures Run(c, es).pending == Some(kind) <==> exists i :: 0 <= i < |es| && Waits(c, es, i, kind)
  {
    if es != [] {
      var n := |es| - 1;
      var init, e := es[..n], es[n];
      var before := Run(c, init);
      RunKeepsSound(c, init);
      PendingStep(before, e, kind);
      assert Before(c, es, n) == before;
      assert Waits(c, es, n, kind) <==> e == Trigger(kind) && before.inFlight;
      PendingIff(c, init, kind);
      forall i: nat | i < n
        ensures Waits(c, es, i, kind) <==> Waits(c, init, i, kind) && !Overtakes(c, es, n)
      {
        WaitsOfInit(c, es, i, kind);
      }
      hide Sound, SingleFlight, Numbered, Waits, Before, Step, Starts;
    }
  }

  lemma LatestTrigger(es: seq<Event>, i: nat) returns (last: nat)
    requires i < |es| && es[i].Trigger?
    ensures i <= last < |es| && es[last].Trigger? && forall j | last < j < |es| :: !es[j].Trigger?
  {
    last := |es| - 1;
    while !es[last].Trigger?
      invariant i <= last < |es| && forall j | last < j < |es| :: !es[j].Trigger?
      decreases last
    {
      last := last - 1;
    }
  }

  /** A trigger that no failure follows is served or owed: a build has started at it or after it, or
      one is in flight that the loop will follow with another. When the pair is quiet, it has been
      served. */
  lemma EveryTriggerIsServed(es: seq<Event>, i: nat)
    requires Legal(SILENT, es) && i < |es| && es[i].Trigger?
    requires forall j | i < j < |es| :: !es[j].Fail?
    ensures (exists j :: i <= j < |es| && StartsAt(SILENT, es, j)) || Run(SILENT, es).pending.Some?
    ensures !Run(SILENT, es).inFlight ==> exists j :: i <= j < |es| && StartsAt(SILENT, es, j)
  {
    RunKeepsSound(SILENT, es);
    if forall j | i <= j < |es| :: !StartsAt(SILENT, es, j) {
      var last := LatestTrigger(es, i);
      assert Waits(SILENT, es, last, es[last].kind);
      PendingIff(SILENT, es, es[last].kind);
    }
  }

  lemma LatestStart(es: seq<Event>, i: nat) returns (j: nat)
    requires Legal(SILENT, es) && exists k :: i <= k < |es| && StartsAt(SILENT, es, k)
    ensures i <= j < |es| && StartsAt(SILENT, es, j) && forall k | j < k < |es| :: !StartsAt(SILENT, es, k)
  {
    hide StartsAt, Legal;
    j := |es| - 1;
    while !StartsAt(SILENT, es, j)
      invariant j < |es| && forall k | j < k < |es| :: !StartsAt(SILENT, es, k)
      invariant exists k :: i <= k <= j && StartsAt(SILENT, es, k)
      decreases j
    {
      j := j - 1;
    }
  }

  /** A caller's promise, unless a failure comes between, resolves with the payload just broadcast,
      and the build of that payload, the last to start, started no earlier than the call. */
  lemma PromiseIsFresh(es: seq<Event>, i: nat)
    requires Legal(SILENT, es) && i < |es| && es[i].Trigger? && es[|es| - 1].Deliver?
    requires forall k | i < k < |es| :: !es[k].Fail?
    requires !Run(SILENT, es).inFlight
    ensures var c := Run(SILENT, es);
            && c.emitted != [] && c.result == Some(c.emitted[|c.emitted| - 1])
            && exists j :: i <= j < |es| - 1 && StartsAt(SILENT, es, j)
                           && forall k | j < k < |es| :: !StartsAt(SILENT, es, k)
  {
    EndsWithResult(es);
    EveryTriggerIsServed(es, i);
    hide Run, Legal, StartsAt;
    var j := LatestStart(es, i);
  }

  /** A run that ends by delivering resolves with what it delivered, and starts nothing. */
  lemma EndsWithResult(es: seq<Event>)
    requires Legal(SILENT, es) && es != [] && es[|es| - 1].Deliver? && !Run(SILENT, es).inFlight
    ensures var c := Run(SILENT, es); c.emitted != [] && c.result == Some(c.emitted[|c.emitted| - 1])
    ensures !StartsAt(SILENT, es, |es| - 1)
  {
    var n := |es| - 1;
    RunKeepsSound(SILENT, es[..n]);
    assert Before(SILENT, es, n) == Run(SILENT, es[..n]);
    DeliverEnds(Run(SILENT, es[..n]), es[n].id);
  }

  lemma DeliverEnds(c: Channel, id: nat)
    requires SingleFlight(c) && Enabled(c, Deliver(id))
    ensures var after := Step(c, Deliver(id));
            && after.emitted == c.emitted + [c.tasks[id].payload] && after.result == Some(c.tasks[id].payload)
            && (!after.inFlight <==> c.pending.None?)
  {}

  /** No start is at or after the trigger. */
  predicate Unserved(es: seq<Event>, i: nat)
    requires Legal(SILENT, es)
  {
    i < |es| && es[i].Trigger? && forall j | i <= j < |es| :: !StartsAt(SILENT, es, j)
  }

  lemma {:induction false} StartedSinceFailure(es: seq<Event>, k: nat)
    requires Legal(SILENT, es) && k < |es| && es[k].Fail? && Run(SILENT, es).inFlight
    ensures exists j :: k < j < |es| && StartsAt(SILENT, es, j)
  {
    var n := |es| - 1;
    assert Before(SILENT, es, n) == Run(SILENT, es[..n]);
    if !StartsAt(SILENT, es, n) {
      assert k < n;
      StartedSinceFailure(es[..n], k);
      var j :| k < j < n && StartsAt(SILENT, es[..n], j);
      BeforeOfInit(SILENT, es, j);
    }
  }

  /** While a build is in flight, some trigger is unserved exactly when the pending mark is set. */
  lemma UnservedIffPending(es: seq<Event>)
    requires Legal(SILENT, es) && Run(SILENT, es).inFlight
    ensures (exists i :: Unserved(es, i)) <==> Run(SILENT, es).pending.Some?
  {
    var c := Run(SILENT, es);
    if c.pending.Some? {
      PendingIff(SILENT, es, c.pending.value);
      var i :| 0 <= i < |es| && Waits(SILENT, es, i, c.pending.value);
      forall j | i <= j < |es| ensures !StartsAt(SILENT, es, j) {
        if j > i {
          assert !Overtakes(SILENT, es, j);
        }
      }
      assert Unserved(es, i);
    }
    forall i: nat | Unserved(es, i) ensures c.pending.Some? {
      forall k | i < k < |es| ensures !es[k].Fail? {
        if es[k].Fail? {
          StartedSinceFailure(es, k);
        }
      }
      EveryTriggerIsServed(es, i);
    }
  }

  lemma UnservedAppend(es: seq<Event>, id: nat, i: nat)
    requires Legal(SILENT, es) && Legal(SILENT, es + [Fail(id)])
    ensures Unserved(es + [Fail(id)], i) <==> Unserved(es, i)
  {
    var all := es + [Fail(id)];
    assert all[..|es|] == es;
    forall j: nat | j < |es| ensures StartsAt(SILENT, all, j) <==> StartsAt(SILENT, es, j) {
      BeforeOfInit(SILENT, all, j);
    }
    assert !StartsAt(SILENT, all, |es|);
    hide StartsAt, Legal;
  }

  /** A failure is the one way to lose a trigger, and it loses one exactly when the pending mark is
      set: the mark is dropped with the run. */
  lemma FailureLosesIff(es: seq<Event>, id: nat)
    requires Legal(SILENT, es) && id in Run(SILENT, es).tasks
    ensures Legal(SILENT, es + [Fail(id)]) && !Run(SILENT, es + [Fail(id)]).inFlight
    ensures (exists i :: Unserved(es + [Fail(id)], i)) <==> Run(SILENT, es).pending.Some?
  {
    var all := es + [Fail(id)];
    assert all[..|es|] == es;
    RunKeepsSound(SILENT, es);
    assert Run(SILENT, es).inFlight;
    UnservedIffPending(es);
    hide Unserved, Sound;
    forall i: nat ensures Unserved(all, i) <==> Unserved(es, i) {
      UnservedAppend(es, id, i);
    }
  }

  // ---------------------------------------------------------------- the publisher itself

  class Publisher {
    var seqNumbers: map<Pair, nat>
    var inFlight: set<Pair>
    var pendingRepublish: map<Pair, Kind>
    /** The builds in flight of each pair, and how many runs it has had. */
    var tasks: map<Pair, map<nat, Task>>
    var runs: map<Pair, nat>
    var emitted: map<Pair, seq<Payload>>
    var results: map<Pair, Payload>

    function NumberOf(p: Pair): nat
      reads this
    {
      if p in seqNumbers then seqNumbers[p] else 0
    }

    function TasksOf(p: Pair): map<nat, Task>
      reads this
    {
      if p in tasks then tasks[p] else map[]
    }

    function RunsOf(p: Pair): nat
      reads this
    {
      if p in runs then runs[p] else 0
    }

    function EmittedOf(p: Pair): seq<Payload>
      reads this
    {
      if p in emitted then emitted[p] else []
    }

    function Of(p: Pair): Channel
      reads this
    {
      Channel(NumberOf(p), p in inFlight, if p in pendingRepublish then Some(pendingRepublish[p]) else None,
              TasksOf(p), RunsOf(p), EmittedOf(p), if p in results then Some(results[p]) else None)
    }

    constructor ()
      ensures forall p :: Of(p) == SILENT
    {
      seqNumbers, inFlight, pendingRepublish := map[], {}, map[];
      tasks, runs, emitted, results := map[], map[], map[], map[];
    }

    method NextSeq(p: Pair) returns (seqNo: nat)
      modifies this`seqNumbers
      ensures seqNo == old(NumberOf(p)) + 1 && Of(p) == old(Of(p)).(counter := seqNo)
      ensures Of(p) == Step(old(Of(p)), RestDraw)
      ensures forall q | q != p :: Of(q) == old(Of(q))
    {
      seqNo := NumberOf(p) + 1;
      seqNumbers := seqNumbers[p := seqNo];
    }

    /** A call while a run is in flight leaves a mark; otherwise it starts a run, whose first build
        suspends before the run is registered. */
    method PublishOrderBook(p: Pair, kind: Kind)
      modifies this
      ensures Of(p) == Step(old(Of(p)), Trigger(kind))
      ensures p in inFlight && NumberOf(p) == old(NumberOf(p)) && EmittedOf(p) == old(EmittedOf(p))
      ensures old(p in inFlight) ==>
                && p in pendingRepublish && pendingRepublish[p] == kind
                && TasksOf(p) == old(TasksOf(p)) && RunsOf(p) == old(RunsOf(p))
                && (p in results <==> old(p in results)) && (p in results ==> results[p] == old(results[p]))
      ensures old(p !in inFlight) ==>
                && p !in pendingRepublish && p !in results && RunsOf(p) == old(RunsOf(p)) + 1
                && TasksOf(p) == old(TasksOf(p))[old(RunsOf(p)) := Looking(kind)]
      ensures forall q | q != p :: Of(q) == old(Of(q))
    {
      if p in inFlight {
        pendingRepublish := pendingRepublish[p := kind];
        return;
      }
      var id := RunsOf(p);
      runs := runs[p := id + 1];
      pendingRepublish := pendingRepublish - {p};
      results := results - {p};
      tasks := tasks[p := TasksOf(p)[id := Looking(kind)]];
      inFlight := inFlight + {p};
    }

    /** The build resumes with the pair document, if there is one, and its verdict on the depth. */
    method ResumeBuild(p: Pair, id: nat, known: bool)
      requires id in TasksOf(p) && TasksOf(p)[id].Looking?
      modifies this
      ensures Of(p) == Step(old(Of(p)), if known then Draw(id) else NoPair(id))
      ensures NumberOf(p) == old(NumberOf(p)) + if known then 1 else 0
      ensures TasksOf(p) == old(TasksOf(p))[id := if known then Drawn(old(TasksOf(p))[id].kind, NumberOf(p))
                                                  else Built(Payload(0, false, "SNAPSHOT"))]
      ensures inFlight == old(inFlight) && pendingRepublish == old(pendingRepublish)
      ensures emitted == old(emitted) && results == old(results)
      ensures forall q | q != p :: Of(q) == old(Of(q))
    {
      var task := TasksOf(p)[id];
      if !known {
        tasks := tasks[p := TasksOf(p)[id := Built(Payload(0, false, "SNAPSHOT"))]];
        return;
      }
      var seqNo := NextSeq(p);
      tasks := tasks[p := TasksOf(p)[id := Drawn(task.kind, seqNo)]];
    }

    method ReturnPayload(p: Pair, id: nat, healthy: bool)
      requires id in TasksOf(p) && TasksOf(p)[id].Drawn?
      modifies this
      ensures Of(p) == Step(old(Of(p)), Finish(id, healthy))
      ensures TasksOf(p) == old(TasksOf(p))[id := Built(Payload(old(TasksOf(p))[id].seqNo, true,
                                                if healthy then old(TasksOf(p))[id].kind else "SNAPSHOT"))]
      ensures inFlight == old(inFlight) && pendingRepublish == old(pendingRepublish)
      ensures seqNumbers == old(seqNumbers) && emitted == old(emitted) && results == old(results)
      ensures forall q | q != p :: Of(q) == old(Of(q))
    {
      var task := TasksOf(p)[id];
      var kind := if healthy then task.kind else "SNAPSHOT";
      tasks := tasks[p := TasksOf(p)[id := Built(Payload(task.seqNo, true, kind))]];
    }

    /** Broadcast, then either go round for the mark that was left or end the run. */
    method EmitAndDrain(p: Pair, id: nat)
      requires id in TasksOf(p) && TasksOf(p)[id].Built?
      modifies this
      ensures Of(p) == Step(old(Of(p)), Deliver(id))
      ensures EmittedOf(p) == old(EmittedOf(p)) + [old(TasksOf(p))[id].payload] && NumberOf(p) == old(NumberOf(p))
      ensures p in results && results[p] == old(TasksOf(p))[id].payload && p !in pendingRepublish
      ensures old(p in pendingRepublish) ==>
                && (p in inFlight <==> old(p in inFlight))
                && TasksOf(p) == old(TasksOf(p))[id := Looking(old(pendingRepublish[p]))]
      ensures old(p !in pendingRepublish) ==> p !in inFlight && TasksOf(p) == old(TasksOf(p)) - {id}
      ensures forall q | q != p :: Of(q) == old(Of(q))
    {
      var payload := TasksOf(p)[id].payload;
      emitted := emitted[p := EmittedOf(p) + [payload]];
      results := results[p := payload];
      if p in pendingRepublish {
        var nextType := pendingRepublish[p];
        pendingRepublish := pendingRepublish - {p};
        tasks := tasks[p := TasksOf(p)[id := Looking(nextType)]];
      } else {
        EndRun(p, id);
      }
    }

    /** The run is deregistered, and whatever mark was left goes with it. Its promise resolves with
        the last payload it built. */
    method EndRun(p: Pair, id: nat)
      requires id in TasksOf(p)
      modifies this
      ensures Of(p) == Step(old(Of(p)), Fail(id))
      ensures p !in inFlight && p !in pendingRepublish && TasksOf(p) == old(TasksOf(p)) - {id}
      ensures seqNumbers == old(seqNumbers) && emitted == old(emitted)
      ensures old(TasksOf(p))[id].Built? ==> p in results && results[p] == old(TasksOf(p))[id].payload
      ensures !old(TasksOf(p))[id].Built? ==> results == old(results)
      ensures forall q | q != p :: Of(q) == old(Of(q))
    {
      if TasksOf(p)[id].Built? {
        results := results[p := TasksOf(p)[id].payload];
      }
      tasks := tasks[p := TasksOf(p) - {id}];
      inFlight := inFlight - {p};
      pendingRepublish := pendingRepublish - {p};
    }
  }
}

/** The claim's cooldown: one key per user, set once with an expiry. Every interleaving of
    concurrent claims, of claims that find no currency and give the key back, of claims that
    fail or die, and of the clock. Times are milliseconds. */
module FaucetCooldown {
  import opened FreshNumbers
  import opened Options

  const COOLDOWN_MS: int := 24 * 60 * 60 * 1000
  const COOLDOWN_SECONDS: int := 24 * 60 * 60
  const FAUCET_AMOUNT: int := 1000

  type Request = nat

  datatype Claims = Claims(
    now: int,
    key: Option<int>,              // when the cooldown key expires
    pending: map<Request, int>,    // acquired the key at that time, nothing credited yet
    seen: set<Request>,            // asked for the key, and were given it or refused
    settled: set<Request>,         // over: credited, given back, answered, failed or dead
    grants: seq<int>,              // when each credited claim acquired the key
    credits: seq<int>)             // when each was credited, in step with `grants`

  datatype Event =
    | Tick(to: int)
    | Ask(q: Request)        // SET NX EX
    | Refuse(q: Request)     // the key was taken: the claim is answered with a wait
    | Credit(q: Request)
    | GiveBack(q: Request)   // no currency: the key is deleted
    | Die(q: Request)        // the process is gone; the key stays
    | Fail(q: Request)       // a command of the claim throws, nothing credited: its catch deletes the key
    | LoseReply(q: Request)  // the credit is carried out and its reply lost: the catch deletes the key too

  predicate Live(key: Option<int>, now: int) { key.Some? && now < key.value }

  function SetNx(key: Option<int>, now: int): (Option<int>, bool) {
    if Live(key, now) then (key, false) else (Some(now + COOLDOWN_MS), true)
  }

  /** A claim may fail at any command before it has credited anything, the SET included. */
  predicate Enabled(s: Claims, e: Event) {
    match e
    case Tick(to) => to >= s.now
    case Ask(q) => q !in s.seen && q !in s.settled
    case Refuse(q) => q in s.seen && q !in s.pending && q !in s.settled
    case Credit(q) => q in s.pending
    case GiveBack(q) => q in s.pending
    case Die(q) => q !in s.settled
    case Fail(q) => q !in s.settled
    case LoseReply(q) => q in s.pending
  }

  function Over(s: Claims, q: Request): Claims {
    s.(pending := s.pending - {q}, settled := s.settled + {q})
  }

  function Paid(s: Claims, q: Request): Claims
    requires q in s.pending
  {
    Over(s, q).(grants := s.grants + [s.pending[q]], credits := s.credits + [s.now])
  }

  function Step(s: Claims, e: Event): Claims
    requires Enabled(s, e)
  {
    match e
    case Tick(to) => s.(now := to)
    case Ask(q) =>
      var (key, acquired) := SetNx(s.key, s.now);
      s.(key := key, seen := s.seen + {q}, pending := if acquired then s.pending[q := s.now] else s.pending)
    case Refuse(q) => Over(s, q)
    case Credit(q) => Paid(s, q)
    case GiveBack(q) => Over(s, q).(key := None)
    case Die(q) => Over(s, q)
    case Fail(q) => Over(s, q).(key := None)
    case LoseReply(q) => Paid(s, q).(key := None)
  }

  predicate Allowed(s: Claims, es: seq<Event>)
    decreases |es|
  {
    es == [] || (Enabled(s, es[0]) && Allowed(Step(s, es[0]), es[1..]))
  }

  function Run(s: Claims, es: seq<Event>): Claims
    requires Allowed(s, es)
    decreases |es|
  {
    if es == [] then s else Run(Step(s, es[0]), es[1..])
  }

  predicate Failing(e: Event) { e.Fail? || e.LoseReply? }

  /** No command fails, and a claim that holds the key is over within `within` of acquiring it:
      credited, given back, or dead. */
  predicate Prompt(s: Claims, e: Event, within: int) {
    && !Failing(e)
    && (e.Tick? ==> forall q | q in s.pending :: e.to <= s.pending[q] + within)
  }

  predicate PromptRun(s: Claims, es: seq<Event>, within: int)
    requires Allowed(s, es)
    decreases |es|
  {
    es == [] || (Prompt(s, es[0], within) && PromptRun(Step(s, es[0]), es[1..], within))
  }

  const NO_CLAIMS: Claims := Claims(0, None, map[], {}, {}, [], [])

  // ---------------------------------------------------------------- the key as it is used

  /** Redis TTL: whole seconds, rounded to the nearest; -2 for a key that is not there. */
  function Ttl(key: Option<int>, now: int): int {
    if Live(key, now) then (key.value - now + 500) / 1000 else -2
  }

  class CooldownKey {
    var expires: Option<int>

    /** SET key NX EX: only one of any number of concurrent claims gets it. */
    method Acquire(now: int) returns (ok: bool)
      modifies this
      ensures (expires, ok) == SetNx(old(expires), now)
      ensures ok <==> old(expires) == None || old(expires).value <= now
      ensures expires == if ok then Some(now + 86400000) else old(expires)
    {
      ok := !(expires.Some? && now < expires.value);
      if ok {
        expires := Some(now + COOLDOWN_MS);
      }
    }

    /** DEL, as a claim gives the key back or fails: whoever holds it loses it. */
    method Delete(now: int)
      modifies this
      ensures expires == None && SetNx(expires, now).1
    {
      expires := None;
    }

    /** The status route: whether the account may claim, and the seconds it has to wait. It says
        yes when the key is gone, and also in the key's last half second. */
    method Status(now: int) returns (canClaim: bool, wait: int)
      ensures canClaim <==> !Live(expires, now) || expires.value - now < 500
      ensures canClaim <==> wait == 0
      ensures !canClaim ==> -500 <= 1000 * wait - (expires.value - now) <= 500
    {
      var ttl := Ttl(expires, now);
      wait := if ttl > 0 then ttl else 0;
      canClaim := wait == 0;
    }

    /** The wait a refused claim is answered with, read a moment after the refusal: in the key's
        last half second, and once it is gone, the whole cooldown. */
    method RefusedWait(now: int) returns (wait: int)
      ensures wait == COOLDOWN_SECONDS || (Live(expires, now) && expires.value - now >= 500)
      ensures !Live(expires, now) || expires.value - now < 500 ==> wait == COOLDOWN_SECONDS
      ensures Live(expires, now) && expires.value - now >= 500 ==> -500 <= 1000 * wait - (expires.value - now) <= 500
    {
      var ttl := Ttl(expires, now);
      wait := if ttl > 0 then ttl else COOLDOWN_SECONDS;
    }
  }

  /** The status agrees with what a claim at that instant would be told, except exactly in the last
      half second of the key. */
  lemma StatusAgreesIff(key: Option<int>, now: int)
    ensures (Ttl(key, now) <= 0 <==> SetNx(key, now).1) <==> !(Live(key, now) && key.value - now < 500)
  {}

  /** With 499 ms to go the status says "claim", the claim is refused, and the refusal says to come
      back in a day. */
  lemma StatusMisleads()
    ensures var key := Some(499);
            Ttl(key, 0) == 0 && !SetNx(key, 0).1 && (if Ttl(key, 0) > 0 then Ttl(key, 0) else COOLDOWN_SECONDS) == 86400
  {}

  // ---------------------------------------------------------------- one claim

  /** Whatever ends a claim ends it: nothing more of that request can happen. */
  lemma OverIsOver(s: Claims, e: Event, next: Event)
    requires Enabled(s, e) && !e.Tick? && !e.Ask?
    requires !next.Tick? && next.q == e.q
    ensures !Enabled(Step(s, e), next)
  {}

  /** A claim that finds no currency credits nothing, and the next to ask is given the key for a
      whole day. */
  lemma GivenBackIsFree(s: Claims, q: Request, r: Request)
    requires Enabled(s, GiveBack(q)) && Enabled(s, Ask(r)) && r != q
    ensures var f := Step(s, GiveBack(q));
            && f.grants == s.grants && f.credits == s.credits && q !in f.pending && Enabled(f, Ask(r))
            && var g := Step(f, Ask(r));
               && r in g.pending && g.pending[r] == s.now && g.key == Some(s.now + 86400000)
               && g.grants == s.grants && g.credits == s.credits
  {}

  /** A claim that dies leaves its key: until it expires whoever asks is refused, and from then on
      given a new one. */
  lemma DeadKeyExpires(s: Claims, q: Request, r: Request, to: int)
    requires Enabled(s, Die(q)) && Enabled(s, Ask(r)) && r != q && r !in s.pending
    requires s.key.Some? && s.now <= to
    ensures var f := Step(Step(s, Die(q)), Tick(to));
            && f.grants == s.grants && f.credits == s.credits && f.now == to && Enabled(f, Ask(r))
            && var g := Step(f, Ask(r));
               && (r in g.pending <==> s.key.value <= to)
               && g.key == (if s.key.value <= to then Some(to + 86400000) else s.key)
               && (r !in g.pending ==> Enabled(g, Refuse(r)) && Step(g, Refuse(r)).key == s.key
                                       && Step(g, Refuse(r)).pending == g.pending)
  {}

  // ---------------------------------------------------------------- the invariant

  /** Times at least a cooldown apart, in order. */
  predicate Spaced(times: seq<int>) {
    forall i, j | 0 <= i < j < |times| :: times[i] + COOLDOWN_MS <= times[j]
  }

  predicate Sound(s: Claims, within: int) {
    && Spaced(s.grants)
    && |s.credits| == |s.grants|
    && (forall i | 0 <= i < |s.grants| ::
          && s.grants[i] <= s.credits[i] <= s.grants[i] + within
          && s.grants[i] <= s.now
          && (s.now < s.grants[i] + COOLDOWN_MS ==> s.key == Some(s.grants[i] + COOLDOWN_MS)))
    && (forall q | q in s.pending ::
          && s.pending[q] <= s.now <= s.pending[q] + within
          && s.key == Some(s.pending[q] + COOLDOWN_MS)
          && (forall i | 0 <= i < |s.grants| :: s.grants[i] + COOLDOWN_MS <= s.pending[q]))
    && (forall q, p | q in s.pending && p in s.pending :: q == p)
  }

  lemma StepKeepsSound(s: Claims, e: Event, within: int)
    requires 0 <= within < COOLDOWN_MS
    requires Sound(s, within) && Enabled(s, e) && Prompt(s, e, within)
    ensures Sound(Step(s, e), within)
  {
    if e.Ask? && !Live(s.key, s.now) {
      assert s.pending == map[];
    }
  }

  lemma {:induction false} RunKeepsSound(s: Claims, es: seq<Event>, within: int)
    requires 0 <= within < COOLDOWN_MS
    requires Sound(s, within) && Allowed(s, es) && PromptRun(s, es, within)
    ensures Sound(Run(s, es), within)
    decreases |es|
  {
    if es != [] {
      StepKeepsSound(s, es[0], within);
      RunKeepsSound(Step(s, es[0]), es[1..], within);
    }
  }

  // ---------------------------------------------------------------- the rate

  function Count(times: seq<int>, lo: int, hi: int): nat {
    if times == [] then 0
    else Count(times[..|times| - 1], lo, hi) + if lo <= times[|times| - 1] <= hi then 1 else 0
  }

  lemma {:induction false} CountIsBounded(times: seq<int>, lo: int, hi: int)
    requires Spaced(times)
    ensures Count(times, lo, hi) <= if lo <= hi then (hi - lo) / COOLDOWN_MS + 1 else 0
  {
    if times != [] {
      var init, last := times[..|times| - 1], times[|times| - 1];
      CountIsBounded(init, lo, hi);
      if lo <= last <= hi {
        CountIsBounded(init, lo, last - COOLDOWN_MS);
        forall i | 0 <= i < |init| ensures init[i] <= last - COOLDOWN_MS {
          assert times[i] + COOLDOWN_MS <= times[|times| - 1];
        }
        CountUpTo(init, lo, last - COOLDOWN_MS, hi);
        if lo <= last - COOLDOWN_MS {
          assert (last - COOLDOWN_MS - lo) / COOLDOWN_MS + 1 == (last - lo) / COOLDOWN_MS;
        }
      }
    }
  }

  lemma {:induction false} CountUpTo(times: seq<int>, lo: int, top: int, hi: int)
    requires forall i | 0 <= i < |times| :: times[i] <= top
    requires top <= hi
    ensures Count(times, lo, hi) == Count(times, lo, top)
  {
    if times != [] {
      CountUpTo(times[..|times| - 1], lo, top, hi);
    }
  }

  lemma {:induction false} CountShifted(credits: seq<int>, grants: seq<int>, within: int, lo: int, hi: int)
    requires |credits| == |grants|
    requires forall i | 0 <= i < |grants| :: grants[i] <= credits[i] <= grants[i] + within
    ensures Count(credits, lo, hi) <= Count(grants, lo - within, hi)
  {
    if credits != [] {
      var n := |credits| - 1;
      assert forall i | 0 <= i < n :: grants[..n][i] == grants[i] && credits[..n][i] == credits[i];
      CountShifted(credits[..n], grants[..n], within, lo, hi);
    }
  }

  /** The grant rate. Measured when the key is acquired, a user's credited claims over any
      interval of `span` are at most span / 24h + 1. Measured when the money lands, the
      interval has to be widened by how late a claim may be credited. */
  lemma GrantRate(es: seq<Event>, within: int, from: int, span: nat)
    requires 0 <= within < COOLDOWN_MS && Allowed(NO_CLAIMS, es) && PromptRun(NO_CLAIMS, es, within)
    ensures var s := Run(NO_CLAIMS, es);
            && FAUCET_AMOUNT * Count(s.grants, from, from + span) <= FAUCET_AMOUNT * (span / COOLDOWN_MS + 1)
            && FAUCET_AMOUNT * Count(s.credits, from, from + span)
               <= FAUCET_AMOUNT * ((span + within) / COOLDOWN_MS + 1)
  {
    RunKeepsSound(NO_CLAIMS, es, within);
    hide Count, Run, Allowed, PromptRun, Spaced;
    var s := Run(NO_CLAIMS, es);
    CountIsBounded(s.grants, from, from + span);
    CountIsBounded(s.grants, from - within, from + span);
    CountShifted(s.credits, s.grants, within, from, from + span);
  }

  // ---------------------------------------------------------------- what the rate does not say

  lemma {:induction false} Extend(s: Claims, es: seq<Event>, e: Event) returns (es': seq<Event>, s': Claims)
    requires Allowed(s, es) && Enabled(Run(s, es), e)
    ensures es' == es + [e] && Allowed(s, es') && Run(s, es') == s' == Step(Run(s, es), e)
    ensures forall w :: PromptRun(s, es, w) && Prompt(Run(s, es), e, w) ==> PromptRun(s, es', w)
    decreases |es|
  {
    es', s' := es + [e], Step(Run(s, es), e);
    if es == [] {
      assert es'[1..] == [];
    } else {
      assert es'[1..] == es[1..] + [e];
      var _, _ := Extend(Step(s, es[0]), es[1..], e);
    }
  }

  ghost predicate CreditsBounded(within: int) {
    forall es, lo, hi | Allowed(NO_CLAIMS, es) && PromptRun(NO_CLAIMS, es, within) && lo <= hi ::
      Count(Run(NO_CLAIMS, es).credits, lo, hi) <= (hi - lo) / COOLDOWN_MS + 1
  }

  /** The first claim dawdles for as long as it may, and the second is credited at once. */
  lemma CreditsMayBunch(within: int) returns (es: seq<Event>)
    requires 0 < within < COOLDOWN_MS
    ensures Allowed(NO_CLAIMS, es) && PromptRun(NO_CLAIMS, es, within)
    ensures Run(NO_CLAIMS, es).credits == [within, COOLDOWN_MS]
    ensures Count(Run(NO_CLAIMS, es).credits, within, COOLDOWN_MS) == 2
  {
    hide Run, Allowed, PromptRun;
    var s := NO_CLAIMS;
    Begin();
    es, s := Extend(NO_CLAIMS, [], Ask(0));
    es, s := Extend(NO_CLAIMS, es, Tick(within));
    es, s := Extend(NO_CLAIMS, es, Credit(0));
    assert s.pending == map[];
    es, s := Extend(NO_CLAIMS, es, Tick(COOLDOWN_MS));
    es, s := Extend(NO_CLAIMS, es, Ask(1));
    es, s := Extend(NO_CLAIMS, es, Credit(1));
    TwoInside(within, COOLDOWN_MS);
  }

  /** Measured when the money lands, the rate holds for all runs without a failing command if and
      only if a claim is credited the instant it acquires the key. */
  lemma CreditBoundIff(within: int)
    requires 0 <= within < COOLDOWN_MS
    ensures CreditsBounded(within) <==> within == 0
  {
    hide Run, Allowed, PromptRun, Count;
    if within == 0 {
      forall es, lo, hi | Allowed(NO_CLAIMS, es) && PromptRun(NO_CLAIMS, es, within) && lo <= hi
        ensures Count(Run(NO_CLAIMS, es).credits, lo, hi) <= (hi - lo) / COOLDOWN_MS + 1
      {
        GrantRate(es, within, lo, hi - lo);
      }
    } else {
      var es := CreditsMayBunch(within);
      assert Count(Run(NO_CLAIMS, es).credits, within, COOLDOWN_MS) == 2;
      assert (COOLDOWN_MS - within) / COOLDOWN_MS == 0;
    }
  }

  lemma TwoInside(a: int, b: int)
    requires a <= b
    ensures Count([a, b], a, b) == 2
  {
    assert [a, b][..1] == [a] && [a][..0] == [];
    assert Count([a], a, b) == 1;
  }

  lemma Begin()
    ensures Allowed(NO_CLAIMS, []) && Run(NO_CLAIMS, []) == NO_CLAIMS
    ensures forall w :: PromptRun(NO_CLAIMS, [], w)
  {}

  // ---------------------------------------------------------------- claims that fail

  /** From here on, as long as no further command fails, no two credited claims are less than a
      cooldown apart. */
  ghost predicate StaysSpaced(s: Claims, within: int) {
    forall es | Allowed(s, es) && PromptRun(s, es, within) :: Spaced(Run(s, es).grants)
  }

  /** Nobody else holds the key or has been credited under it. */
  predicate Unclaimed(s: Claims, q: Request) {
    && (forall p | p in s.pending :: p == q)
    && (forall i | 0 <= i < |s.grants| :: s.grants[i] + COOLDOWN_MS <= s.now)
  }

  /** With no key, whoever claims is credited at once: too soon, if somebody was credited under a key
      that should still be there, or may yet be. */
  lemma ClaimsTooSoon(f: Claims) returns (es: seq<Event>)
    requires f.key == None
    requires (exists p :: p in f.pending && f.pending[p] <= f.now)
          || exists i :: 0 <= i < |f.grants| && f.grants[i] + COOLDOWN_MS > f.now
    ensures Allowed(f, es) && (forall w :: PromptRun(f, es, w)) && !Spaced(Run(f, es).grants)
  {
    hide Run, Allowed, PromptRun;
    var n := Fresh(f.seen + f.settled + f.pending.Keys);
    var t := f;
    BeginAt(f);
    es, t := Extend(f, [], Ask(n));
    assert t.pending == f.pending[n := f.now];
    es, t := Extend(f, es, Credit(n));
    assert t.grants[|f.grants|] == f.now;
    if p :| p in f.pending && f.pending[p] <= f.now {
      es, t := Extend(f, es, Credit(p));
      assert t.grants[|f.grants|] == f.now && t.grants[|f.grants| + 1] == f.pending[p];
    } else {
      var i :| 0 <= i < |f.grants| && f.grants[i] + COOLDOWN_MS > f.now;
      assert t.grants[i] == f.grants[i];
    }
  }

  lemma BeginAt(s: Claims)
    ensures Allowed(s, []) && Run(s, []) == s
    ensures forall w :: PromptRun(s, [], w)
  {}

  /** A failing claim is harmless if and only if nothing was credited by the command that failed,
      nobody else holds the key, and nobody was credited within the last cooldown. Its catch deletes
      the key without asking whose it is, or whether the credit went through. */
  lemma FailureIsHarmlessIff(s: Claims, e: Event, within: int)
    requires 0 <= within < COOLDOWN_MS && Sound(s, within) && Enabled(s, e) && Failing(e)
    ensures StaysSpaced(Step(s, e), within) <==> e.Fail? && Unclaimed(s, e.q)
    ensures Sound(Step(s, e), within) <==> e.Fail? && Unclaimed(s, e.q)
  {
    var f := Step(s, e);
    if e.Fail? && Unclaimed(s, e.q) {
      assert f.pending == map[];
      assert Sound(f, within);
      forall es | Allowed(f, es) && PromptRun(f, es, within) ensures Spaced(Run(f, es).grants) {
        RunKeepsSound(f, es, within);
      }
    } else {
      FailureLeavesNoKey(s, e, within);
      var es := ClaimsTooSoon(f);
      if Sound(f, within) {
        RunKeepsSound(f, es, within);
        assert false;
      }
    }
  }

  lemma FailureLeavesNoKey(s: Claims, e: Event, within: int)
    requires 0 <= within < COOLDOWN_MS && Sound(s, within) && Enabled(s, e) && Failing(e)
    requires e.Fail? ==> !Unclaimed(s, e.q)
    ensures var f := Step(s, e);
            && f.key == None
            && ((exists p :: p in f.pending && f.pending[p] <= f.now)
                || exists i :: 0 <= i < |f.grants| && f.grants[i] + COOLDOWN_MS > f.now)
  {
    var f := Step(s, e);
    if e.LoseReply? {
      assert f.grants[|s.grants|] == s.pending[e.q];
    } else if p :| p in s.pending && p != e.q {
      assert p in f.pending;
    }
  }

  /** The claim that failed was credited all the same, and claims again at once. */
  lemma LostReplyPaysTwice() returns (es: seq<Event>)
    ensures es == [Ask(0), LoseReply(0), Ask(1), Credit(1)]
    ensures Allowed(NO_CLAIMS, es) && Run(NO_CLAIMS, es).credits == [0, 0]
  {
    var s := NO_CLAIMS;
    Begin();
    hide Run, Allowed, PromptRun;
    es, s := Extend(NO_CLAIMS, [], Ask(0));
    es, s := Extend(NO_CLAIMS, es, LoseReply(0));
    es, s := Extend(NO_CLAIMS, es, Ask(1));
    es, s := Extend(NO_CLAIMS, es, Credit(1));
  }

  /** The failing claim need never have held the key: it is refused, its read of the wait throws,
      and the user is credited twice at once. */
  lemma FailureReopensTheClaim() returns (es: seq<Event>)
    ensures es == [Ask(0), Credit(0), Ask(1), Fail(1), Ask(2), Credit(2)]
    ensures Allowed(NO_CLAIMS, es)
    ensures var asked := [Ask(0), Credit(0), Ask(1)];
            asked <= es && Allowed(NO_CLAIMS, asked) && 1 !in Run(NO_CLAIMS, asked).pending
    ensures Run(NO_CLAIMS, es).grants == [0, 0] && Run(NO_CLAIMS, es).credits == [0, 0]
  {
    var s := NO_CLAIMS;
    Begin();
    hide Run, Allowed, PromptRun;
    es, s := Extend(NO_CLAIMS, [], Ask(0));
    es, s := Extend(NO_CLAIMS, es, Credit(0));
    es, s := Extend(NO_CLAIMS, es, Ask(1));
    assert es == [Ask(0), Credit(0), Ask(1)] && 1 !in Run(NO_CLAIMS, es).pending;
    es, s := Extend(NO_CLAIMS, es, Fail(1));
    es, s := Extend(NO_CLAIMS, es, Ask(2));
    es, s := Extend(NO_CLAIMS, es, Credit(2));
  }
}

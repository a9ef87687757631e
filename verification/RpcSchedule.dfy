// The Arc RPC request scheduler and its retry loop (apps/web/src/lib/arc-rpc.ts). Turns are taken one at a
// time in call order, as on any promise chain; a sleep never ends early and the clock never goes back.
module RpcSchedule {
  import opened Options

  function Max(a: int, b: int): int {
    if a < b then b else a
  }

  function WaitOf(nextStartAt: int, now: int): int {
    Max(0, nextStartAt - now)
  }

  function Claimed(nextStartAt: int, now: int, interval: nat): int {
    Max(nextStartAt, now) + interval
  }

  function Deferred(nextStartAt: int, now: int, milliseconds: int): int {
    Max(nextStartAt, now + milliseconds)
  }

  // Each is the least that will do: the wait that reaches the next start, the next start an interval after the
  // slot's own, and the next start that leaves the deferral behind.
  lemma DelaysAreLeast(nextStartAt: int, now: int, interval: nat, milliseconds: int, x: int)
    ensures WaitOf(nextStartAt, now) <= x <==> 0 <= x && nextStartAt <= now + x
    ensures Claimed(nextStartAt, now, interval) <= x <==> nextStartAt + interval <= x && now + interval <= x
    ensures Deferred(nextStartAt, now, milliseconds) <= x <==> nextStartAt <= x && now + milliseconds <= x
  {
  }

  // ---- runs ----

  // A finished slot: when its turn began, when it resolved, and how many deferrals came before its turn.
  datatype Slot = Slot(begun: int, resolved: int, seen: nat)

  datatype Deferral = Deferral(at: int, milliseconds: int)

  datatype Turn = Idle | Sleeping(begun: int, until: int, seen: nat)

  datatype State = State(interval: nat, clock: int, nextStartAt: int, calls: nat, waiting: nat, turn: Turn,
                         slots: seq<Slot>,
                         deferrals: seq<Deferral>)

  function Initial(interval: nat, clock: int): State {
    State(interval, clock, 0, 0, 0, Idle, [], [])
  }

  datatype Event = Tick(now: int) | WaitForSlot | Begin | Wake | Defer(milliseconds: int)

  predicate Enabled(s: State, e: Event) {
    match e
    case Tick(now) => s.clock <= now
    case WaitForSlot => true
    case Begin => s.turn == Idle && s.waiting > 0
    case Wake => s.turn.Sleeping? && s.turn.until <= s.clock
    case Defer(_) => true
  }

  function Resolve(s: State, begun: int, seen: nat): State {
    s.(nextStartAt := Claimed(s.nextStartAt, s.clock, s.interval), turn := Idle,
       slots := s.slots + [Slot(begun, s.clock, seen)])
  }

  function Next(s: State, e: Event): State
    requires Enabled(s, e)
  {
    match e
    case Tick(now) => s.(clock := now)
    case WaitForSlot => s.(calls := s.calls + 1, waiting := s.waiting + 1)
    case Begin =>
      var waitMs := WaitOf(s.nextStartAt, s.clock);
      var begun := s.(waiting := s.waiting - 1);
      if waitMs == 0 then Resolve(begun, s.clock, |s.deferrals|)
      else begun.(turn := Sleeping(s.clock, s.clock + waitMs, |s.deferrals|))
    case Wake => Resolve(s, s.turn.begun, s.turn.seen)
    case Defer(ms) =>
      s.(nextStartAt := Deferred(s.nextStartAt, s.clock, ms), deferrals := s.deferrals + [Deferral(s.clock, ms)])
  }

  ghost predicate IsRun(interval: nat, start: int, states: seq<State>, events: seq<Event>) {
    && |states| == |events| + 1
    && states[0] == Initial(interval, start)
    && forall i | 0 <= i < |events| :: Enabled(states[i], events[i]) && states[i + 1] == Next(states[i], events[i])
  }

  // ---- what every step keeps ----

  ghost predicate Spaced(interval: nat, slots: seq<Slot>) {
    forall i | 0 <= i < |slots| - 1 :: slots[i].resolved + interval <= slots[i + 1].resolved
  }

  predicate Respects(time: int, d: Deferral) {
    d.at + d.milliseconds <= time
  }

  ghost predicate Honoured(slots: seq<Slot>, deferrals: seq<Deferral>) {
    forall i, k | 0 <= i < |slots| && 0 <= k < |deferrals| && k < slots[i].seen ::
      Respects(slots[i].resolved, deferrals[k])
  }

  ghost predicate Inv(s: State) {
    && Spaced(s.interval, s.slots)
    && Honoured(s.slots, s.deferrals)
    && (forall i | 0 <= i < |s.slots| :: s.slots[i].seen <= |s.deferrals|
                                         && s.slots[i].begun <= s.slots[i].resolved <= s.clock)
    && (s.slots != [] ==> s.slots[|s.slots| - 1].resolved + s.interval <= s.nextStartAt)
    && (forall k | 0 <= k < |s.deferrals| :: Respects(s.nextStartAt, s.deferrals[k]))
    && s.calls == s.waiting + |s.slots| + (if s.turn.Sleeping? then 1 else 0)
    && (s.turn.Sleeping? ==>
          && s.turn.begun <= s.clock && s.turn.seen <= |s.deferrals|
          && (s.slots != [] ==> s.slots[|s.slots| - 1].resolved + s.interval <= s.turn.until)
          && (forall k | 0 <= k < s.turn.seen :: Respects(s.turn.until, s.deferrals[k])))
  }

  lemma ResolveKeepsInv(s: State, begun: int, seen: nat)
    requires Inv(s) && s.turn.Idle? && begun <= s.clock && seen <= |s.deferrals|
    requires s.slots != [] ==> s.slots[|s.slots| - 1].resolved + s.interval <= s.clock
    requires forall k | 0 <= k < seen :: Respects(s.clock, s.deferrals[k])
    ensures Inv(Resolve(s.(calls := s.calls + 1), begun, seen))
  {
  }

  lemma BeginKeepsInv(s: State)
    requires Inv(s) && Enabled(s, Begin)
    ensures Inv(Next(s, Begin))
  {
    if WaitOf(s.nextStartAt, s.clock) == 0 {
      ResolveKeepsInv(s.(waiting := s.waiting - 1, calls := s.calls - 1), s.clock, |s.deferrals|);
    }
  }

  lemma DeferKeepsInv(s: State, milliseconds: int)
    requires Inv(s)
    ensures Inv(Next(s, Defer(milliseconds)))
  {
  }

  lemma StepKeepsInv(s: State, e: Event)
    requires Inv(s) && Enabled(s, e)
    ensures Inv(Next(s, e))
  {
    match e
    case Tick(_) =>
    case WaitForSlot =>
    case Begin => BeginKeepsInv(s);
    case Wake => ResolveKeepsInv(s.(turn := Idle, calls := s.calls - 1), s.turn.begun, s.turn.seen);
    case Defer(ms) => DeferKeepsInv(s, ms);
  }

  lemma {:induction false} RunStays(interval: nat, start: int, states: seq<State>, events: seq<Event>, i: nat)
    requires IsRun(interval, start, states, events) && i < |states|
    ensures Inv(states[i]) && states[i].interval == interval
  {
    if i > 0 {
      RunStays(interval, start, states, events, i - 1);
      StepKeepsInv(states[i - 1], events[i - 1]);
    }
  }

  lemma {:induction false} SpacedApart(interval: nat, slots: seq<Slot>, i: nat, j: nat)
    requires Spaced(interval, slots) && i <= j < |slots|
    ensures slots[i].resolved + (j - i) * interval <= slots[j].resolved
  {
    if i < j {
      SpacedApart(interval, slots, i, j - 1);
      assert (j - i) * interval == (j - 1 - i) * interval + interval;
      assert slots[j - 1].resolved + interval <= slots[j - 1 + 1].resolved;
    }
  }

  // In every run, whatever mix of calls and deferrals: slots i and j resolve at least (j - i) intervals apart.
  lemma SlotsAreSpaced(interval: nat, start: int, states: seq<State>, events: seq<Event>, n: nat, i: nat, j: nat)
    requires IsRun(interval, start, states, events) && n < |states| && i <= j < |states[n].slots|
    ensures states[n].slots[i].resolved + (j - i) * interval <= states[n].slots[j].resolved
  {
    RunStays(interval, start, states, events, n);
    SpacedApart(interval, states[n].slots, i, j);
  }

  // A slot whose turn begins after defer(m) at time d does not resolve before d + m.
  lemma DeferralsAreHonoured(interval: nat, start: int, states: seq<State>, events: seq<Event>, n: nat, i: nat, k: nat)
    requires IsRun(interval, start, states, events) && n < |states|
    requires i < |states[n].slots| && k < |states[n].deferrals| && k < states[n].slots[i].seen
    ensures states[n].deferrals[k].at + states[n].deferrals[k].milliseconds <= states[n].slots[i].resolved
  {
    RunStays(interval, start, states, events, n);
    assert Respects(states[n].slots[i].resolved, states[n].deferrals[k]);
  }

  // From a state with a sleeping slot on, that slot goes on sleeping or has resolved, no earlier than its
  // sleep ends.
  lemma {:induction false} SleeperResolves(interval: nat, start: int, states: seq<State>, events: seq<Event>, n: nat,
                                           k: nat)
    requires IsRun(interval, start, states, events) && n <= k < |states| && states[n].turn.Sleeping?
    ensures var i := |states[n].slots|;
            && states[n].clock <= states[k].clock
            && if |states[k].slots| <= i then states[k].slots == states[n].slots && states[k].turn == states[n].turn
               else Max(states[n].turn.until, states[n].clock) <= states[k].slots[i].resolved
  {
    if n < k { SleeperResolves(interval, start, states, events, n, k - 1); }
  }

  // A longer run that resolves slot i.
  ghost predicate Resolves(interval: nat, start: int, states: seq<State>, events: seq<Event>, i: nat,
                           states': seq<State>,
                           events': seq<Event>)
  {
    IsRun(interval, start, states', events') && states <= states' && events <= events' && i < |states'[|events'|].slots|
  }

  // In every continuation of a run, slot i, once it has resolved, respects the deferral.
  ghost predicate AlwaysHonoured(interval: nat, start: int, states: seq<State>, events: seq<Event>, i: nat,
                                 d: Deferral) {
    forall states': seq<State>, events': seq<Event> | Resolves(interval, start, states, events, i, states', events') ::
      Respects(states'[|events'|].slots[i].resolved, d)
  }

  // A deferral does not hold back a slot that is already asleep: the slot is sure to respect defer(m), made
  // while it sleeps at time d, exactly when d + m is no later than the end of its sleep, or than d itself.
  // Together with DeferralsAreHonoured this says which slots honour a deferral.
  lemma SleeperHonoursExactly(interval: nat, start: int, states: seq<State>, events: seq<Event>, milliseconds: int)
    requires IsRun(interval, start, states, events) && events != [] && events[|events| - 1] == Defer(milliseconds)
    requires states[|events| - 1].turn.Sleeping?
    ensures var s := states[|events| - 1];
            AlwaysHonoured(interval, start, states, events, |s.slots|, Deferral(s.clock, milliseconds)) <==>
            s.clock + milliseconds <= Max(s.turn.until, s.clock)
  {
    var n := |events| - 1;
    var s := states[n];
    var i, d := |s.slots|, Deferral(s.clock, milliseconds);
    if s.clock + milliseconds <= Max(s.turn.until, s.clock) {
      forall states': seq<State>, events': seq<Event> | Resolves(interval, start, states, events, i, states', events')
        ensures Respects(states'[|events'|].slots[i].resolved, d)
      {
        assert states'[n] == s;
        SleeperResolves(interval, start, states', events', n, |events'|);
      }
    } else {
      var states', events' := WokenAtOnce(interval, start, states, events);
      assert Resolves(interval, start, states, events, i, states', events');
      assert !Respects(states'[|events'|].slots[i].resolved, d);
    }
  }

  // The earliest end of a sleep: the clock reaches it and the slot wakes.
  lemma WokenAtOnce(interval: nat, start: int, states: seq<State>, events: seq<Event>)
    returns (states': seq<State>, events': seq<Event>)
    requires IsRun(interval, start, states, events) && states[|events|].turn.Sleeping?
    ensures IsRun(interval, start, states', events') && states <= states' && events <= events'
    ensures var s, s' := states[|events|], states'[|events'|];
            |s'.slots| == |s.slots| + 1 && s'.slots[|s.slots|].resolved == Max(s.turn.until, s.clock)
  {
    var s := states[|events|];
    var late := Next(s, Tick(Max(s.turn.until, s.clock)));
    states', events' := states + [late, Next(late, Wake)], events + [Tick(Max(s.turn.until, s.clock)), Wake];
  }

  // For example, with an interval of 250 ms, a slot that resolves 1,950 ms before the time that a rate-limited
  // request had set.
  lemma SleeperIgnoresDeferral() returns (states: seq<State>, events: seq<Event>)
    ensures IsRun(250, 0, states, events)
    ensures var last := states[|events|]; |last.slots| == 2 && last.deferrals == [Deferral(100, 2_100)]
                                          && last.slots[1] == Slot(0, 250, 0) && !Respects(250, last.deferrals[0])
  {
    events := [WaitForSlot, Begin, WaitForSlot, Begin, Tick(100), Defer(2_100), Tick(250), Wake];
    var s0 := Initial(250, 0);
    var s1 := Next(s0, WaitForSlot);
    var s2 := Next(s1, Begin);
    var s3 := Next(s2, WaitForSlot);
    var s4 := Next(s3, Begin);
    var s5 := Next(s4, Tick(100));
    var s6 := Next(s5, Defer(2_100));
    var s7 := Next(s6, Tick(250));
    states := [s0, s1, s2, s3, s4, s5, s6, s7, Next(s7, Wake)];
  }

  // When the slots resolved.
  function Times(slots: seq<Slot>): seq<int> {
    if slots == [] then [] else Times(slots[..|slots| - 1]) + [slots[|slots| - 1].resolved]
  }

  predicate After(times: seq<int>, interval: nat, at: int) {
    times != [] ==> times[|times| - 1] + interval <= at
  }

  lemma OneMoreTime(s: State, slots: seq<Slot>, slot: Slot)
    requires Inv(s) && s.slots == slots + [slot]
    ensures Times(s.slots) == Times(slots) + [slot.resolved] && After(Times(slots), s.interval, slot.resolved)
  {
    assert s.slots[..|slots|] == slots;
    if slots != [] { assert s.slots[|slots| - 1].resolved + s.interval <= s.slots[|slots| - 1 + 1].resolved; }
  }

  type KeptState = s: State | Inv(s) ghost witness Initial(0, 0)

  // ---- the closure variables ----

  // What createArcRpcRequestScheduler closes over. The queue and the sleeps are promises; `view` is the step
  // system that they and these variables make up.
  class RequestScheduler {
    const minimumIntervalMs: nat
    var nextStartAt: int
    ghost var view: KeptState

    ghost predicate Valid()
      reads this
    {
      view.interval == minimumIntervalMs && view.nextStartAt == nextStartAt
    }

    ghost predicate Quiet(now: int)
      reads this
    {
      Valid() && view.turn.Idle? && view.waiting == 0 && view.clock <= now
    }

    constructor (minimumIntervalMs: nat, ghost now: int)
      ensures Valid() && view == Initial(minimumIntervalMs, now)
    {
      this.minimumIntervalMs, nextStartAt, view := minimumIntervalMs, 0, Initial(minimumIntervalMs, now);
    }

    ghost method Join(now: int)
      requires Valid() && view.clock <= now
      modifies this`view
      ensures Valid() && view == Next(Next(old(view), Tick(now)), WaitForSlot)
    {
      view := Next(Next(view, Tick(now)), WaitForSlot);
    }

    // A turn up to its sleep, or to its end when there is nothing to sleep.
    method BeginSlot(now: int) returns (waitMs: int)
      requires Valid() && view.clock <= now && Enabled(view, Begin)
      modifies this
      ensures Valid() && view == Next(Next(old(view), Tick(now)), Begin)
      ensures waitMs == Max(0, old(nextStartAt) - now)
    {
      ghost var later := Next(view, Tick(now));
      StepKeepsInv(later, Begin);
      view := Next(later, Begin);
      waitMs := if nextStartAt - now > 0 then nextStartAt - now else 0;
      if waitMs == 0 { ClaimSlot(now); }
    }

    method WakeSlot(now: int)
      requires Valid() && view.clock <= now && view.turn.Sleeping? && view.turn.until <= now
      modifies this
      ensures Valid() && view == Next(Next(old(view), Tick(now)), Wake)
    {
      ghost var later := Next(view, Tick(now));
      StepKeepsInv(later, Wake);
      view := Next(later, Wake);
      ClaimSlot(now);
    }

    method ClaimSlot(now: int)
      modifies this`nextStartAt
      ensures nextStartAt == Max(old(nextStartAt), now) + minimumIntervalMs
    {
      var startedAt := if nextStartAt < now then now else nextStartAt;
      nextStartAt := startedAt + minimumIntervalMs;
    }

    method Defer(now: int, milliseconds: int)
      requires Valid() && view.clock <= now
      modifies this
      ensures Valid() && view == Next(Next(old(view), Tick(now)), Event.Defer(milliseconds))
    {
      ghost var later := Next(view, Tick(now));
      StepKeepsInv(later, Event.Defer(milliseconds));
      view := Next(later, Event.Defer(milliseconds));
      if nextStartAt < now + milliseconds { nextStartAt := now + milliseconds; }
    }

    // waitForSlot() when no other call is about: it begins at once and sleeps as long as it must.
    method AwaitSlot(now: int) returns (at: int)
      requires Quiet(now)
      modifies this
      ensures Quiet(at) && now <= at && view.deferrals == old(view.deferrals)
      ensures Times(view.slots) == Times(old(view.slots)) + [at]
      ensures After(Times(old(view.slots)), minimumIntervalMs, at)
    {
      Join(now);
      var waitMs := BeginSlot(now);
      at := now + waitMs;
      if waitMs > 0 { WakeSlot(at); }
      OneMoreTime(view, old(view.slots), view.slots[|view.slots| - 1]);
    }

    // A deferral with a sleep of the same length.
    method BackOff(now: int, milliseconds: nat) returns (later: int)
      requires Quiet(now)
      modifies this
      ensures Quiet(later) && later == now + milliseconds
      ensures view.slots == old(view.slots) && view.deferrals == old(view.deferrals) + [Deferral(now, milliseconds)]
    {
      Defer(now, milliseconds);
      later := now + milliseconds;
    }
  }

  // ---- the retry loop ----

  const BACKOFF_MS := 2_100

  datatype Outcome<V> = Success(value: V) | RateLimited(code: int) | Failure(code: int)

  predicate Settles<V>(o: Outcome<V>) {
    !o.RateLimited?
  }

  // Attempt a was rate limited and deferred the scheduler for its backoff; what came next, by `now` or at the
  // next start, came after that backoff, and the next start also after the scheduler's interval.
  predicate RateLimitedAt<V>(answer: nat -> Outcome<V>, took: nat -> nat, interval: nat, starts: seq<int>,
                             deferred: seq<Deferral>, now: int, a: nat)
    requires 1 <= a <= |deferred| <= |starts|
  {
    && !Settles(answer(a)) && deferred[a - 1] == Deferral(starts[a - 1] + took(a), 2_100 * a)
    && starts[a - 1] + took(a) + 2_100 * a <= (if a < |starts| then starts[a] else now)
    && (a < |starts| ==> starts[a - 1] + interval <= starts[a])
  }

  ghost predicate Retried<V>(answer: nat -> Outcome<V>, took: nat -> nat, interval: nat, starts: seq<int>,
                             deferred: seq<Deferral>, now: int)
    requires |deferred| <= |starts|
  {
    forall a: nat | 1 <= a <= |deferred| :: RateLimitedAt(answer, took, interval, starts, deferred, now, a)
  }

  lemma StartFollows<V>(answer: nat -> Outcome<V>, took: nat -> nat, interval: nat, starts: seq<int>,
                        deferred: seq<Deferral>, now: int, at: int, end: int)
    requires |starts| == |deferred| && Retried(answer, took, interval, starts, deferred, now)
    requires now <= at && After(starts, interval, at)
    ensures Retried(answer, took, interval, starts + [at], deferred, end)
  {
    forall a: nat | 1 <= a <= |deferred|
      ensures RateLimitedAt(answer, took, interval, starts + [at], deferred, end, a)
    {
      assert RateLimitedAt(answer, took, interval, starts, deferred, now, a);
    }
  }

  lemma DeferralFollows<V>(answer: nat -> Outcome<V>, took: nat -> nat, interval: nat, starts: seq<int>,
                           deferred: seq<Deferral>, now: int, answered: int, later: int)
    requires |starts| == |deferred| + 1 && Retried(answer, took, interval, starts, deferred, now)
    requires var a := |starts|;
             && !Settles(answer(a)) && answered == starts[a - 1] + took(a) && later == answered + BACKOFF_MS * a
    ensures Retried(answer, took, interval, starts, deferred + [Deferral(answered, BACKOFF_MS * |starts|)], later)
  {
    var deferred' := deferred + [Deferral(answered, BACKOFF_MS * |starts|)];
    forall a: nat | 1 <= a <= |deferred'|
      ensures RateLimitedAt(answer, took, interval, starts, deferred', later, a)
    {
      if a <= |deferred| { assert RateLimitedAt(answer, took, interval, starts, deferred, now, a); }
    }
  }

  // Attempt a of the request takes took(a) milliseconds and would give answer(a). Attempts stop at the first
  // answer that is no rate limit, or at the last attempt; each has a slot of its own.
  method RequestWithArcRpcRetry<V>(scheduler: RequestScheduler, answer: nat -> Outcome<V>, took: nat -> nat,
                                   maxAttempts: nat, start: int)
    returns (outcome: Option<Outcome<V>>, starts: seq<int>, deferred: seq<Deferral>)
    requires scheduler.Quiet(start)
    modifies scheduler
    ensures |starts| <= maxAttempts && (outcome.None? <==> maxAttempts == 0)
    ensures outcome.Some? ==> |starts| >= 1 && outcome.value == answer(|starts|)
    ensures outcome.Some? ==> Settles(answer(|starts|)) || |starts| == maxAttempts
    ensures |deferred| == (if starts == [] then 0 else |starts| - 1)
    ensures Retried(answer, took, scheduler.minimumIntervalMs, starts, deferred, start)
    ensures scheduler.Valid() && Times(scheduler.view.slots) == Times(old(scheduler.view.slots)) + starts
    ensures scheduler.view.deferrals == old(scheduler.view.deferrals) + deferred
  {
    starts, deferred := [], [];
    var now := start;
    for attempt := 1 to maxAttempts + 1
      invariant scheduler.Quiet(now) && |starts| == |deferred| == attempt - 1
      invariant attempt > maxAttempts ==> maxAttempts == 0
      invariant Retried(answer, took, scheduler.minimumIntervalMs, starts, deferred, now)
      invariant Times(scheduler.view.slots) == Times(old(scheduler.view.slots)) + starts
      invariant scheduler.view.deferrals == old(scheduler.view.deferrals) + deferred
    {
      var at := scheduler.AwaitSlot(now);
      StartFollows(answer, took, scheduler.minimumIntervalMs, starts, deferred, now, at, start);
      starts := starts + [at];
      outcome := Some(answer(attempt));
      now := at + took(attempt);
      if Settles(answer(attempt)) || attempt == maxAttempts { return; }
      var later := scheduler.BackOff(now, BACKOFF_MS * attempt);
      DeferralFollows(answer, took, scheduler.minimumIntervalMs, starts, deferred, start, now, later);
      deferred := deferred + [Deferral(now, BACKOFF_MS * attempt)];
      now := later;
    }
    outcome := None;
  }
}

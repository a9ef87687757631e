// withRequesterLock: one lock per requester, made of a chain of promises (apps/permit-issuer/src/domain.ts).
//
// Call number i waits for the tail it found, and leaves its own tail: previous.then(() => current). That
// tail resolves once the earlier tail has resolved and call i has released. A task that throws releases
// in the same `finally` as one that returns, so Finish stands for both.
module RequesterLock {
  import opened Options
  import opened Permits

  datatype Phase = Waiting | Running | Finished

  datatype Call = Call(key: Address, previous: Option<nat>, phase: Phase)

  datatype State = State(calls: seq<Call>, requesterTails: map<Address, nat>)

  datatype Event =
    | Enter(key: Address)
    | Start(call: nat)
    | Finish(call: nat)

  const INITIAL := State([], map[])

  // The tail promise of call i has resolved.
  predicate TailResolved(s: State, i: nat)
    decreases i
  {
    && i < |s.calls| && s.calls[i].phase.Finished?
    && (s.calls[i].previous.Some? ==> s.calls[i].previous.value < i && TailResolved(s, s.calls[i].previous.value))
  }

  predicate Enabled(s: State, e: Event) {
    match e
    case Enter(_) => true
    case Start(i) =>
      && i < |s.calls| && s.calls[i].phase.Waiting?
      && (s.calls[i].previous.Some? ==> TailResolved(s, s.calls[i].previous.value))
    case Finish(i) => i < |s.calls| && s.calls[i].phase.Running?
  }

  function SetPhase(s: State, i: nat, phase: Phase): State
    requires i < |s.calls|
  {
    s.(calls := s.calls[i := s.calls[i].(phase := phase)])
  }

  function Step(s: State, e: Event): State
    requires Enabled(s, e)
  {
    match e
    case Enter(key) =>
      var previous := if key in s.requesterTails then Some(s.requesterTails[key]) else None;
      State(s.calls + [Call(key, previous, Waiting)], s.requesterTails[key := |s.calls|])
    case Start(i) => SetPhase(s, i, Running)
    case Finish(i) =>
      var key := s.calls[i].key;
      var done := SetPhase(s, i, Finished);
      if key in s.requesterTails && s.requesterTails[key] == i then done.(requesterTails := s.requesterTails - {key})
      else done
  }

  ghost predicate IsRun(states: seq<State>, events: seq<Event>) {
    && |states| == |events| + 1 && states[0] == INITIAL
    && forall k | 0 <= k < |events| :: Enabled(states[k], events[k]) && states[k + 1] == Step(states[k], events[k])
  }

  // ---- the invariant ----

  ghost predicate AllDone(s: State, key: Address, upTo: int) {
    forall k: nat | k < |s.calls| && k < upTo && s.calls[k].key == key :: s.calls[k].phase.Finished?
  }

  // A call waits for the one right before it on its key, or for none when those before it were done; and a
  // call that has started came after all of them were done.
  ghost predicate Chained(s: State, i: nat)
    requires i < |s.calls|
  {
    var c := s.calls[i];
    && (c.previous.Some? ==>
          && c.previous.value < i && s.calls[c.previous.value].key == c.key
          && forall k: nat | c.previous.value < k < i :: s.calls[k].key != c.key)
    && (c.previous.None? ==> AllDone(s, c.key, i))
    && (!c.phase.Waiting? ==> AllDone(s, c.key, i))
  }

  // A requester has a tail exactly when some call of it has not finished, and the tail is its last call's.
  ghost predicate Tailed(s: State, key: Address) {
    if key in s.requesterTails then
      var t := s.requesterTails[key];
      t < |s.calls| && s.calls[t].key == key && !s.calls[t].phase.Finished?
      && forall k | t < k < |s.calls| :: s.calls[k].key != key
    else AllDone(s, key, |s.calls|)
  }

  ghost predicate Inv(s: State) {
    (forall i: nat | i < |s.calls| :: Chained(s, i)) && forall key :: Tailed(s, key)
  }

  lemma {:induction false} ResolvedMeansDone(s: State, i: nat)
    requires Inv(s) && i < |s.calls|
    ensures TailResolved(s, i) <==> AllDone(s, s.calls[i].key, i + 1)
    decreases i
  {
    assert Chained(s, i);
    var c := s.calls[i];
    if c.previous.Some? {
      var j := c.previous.value;
      ResolvedMeansDone(s, j);
      if TailResolved(s, i) {
        forall k: nat | k < i && s.calls[k].key == c.key ensures s.calls[k].phase.Finished? { }
      }
    }
  }

  lemma EnterKeepsInv(s: State, key: Address)
    requires Inv(s)
    ensures Inv(Step(s, Enter(key)))
  {
    var s' := Step(s, Enter(key));
    assert Tailed(s, key);
    forall i: nat | i < |s'.calls| ensures Chained(s', i) {
      if i < |s.calls| { assert Chained(s, i); }
    }
    forall other ensures Tailed(s', other) { assert Tailed(s, other); }
  }

  lemma StartKeepsInv(s: State, i: nat)
    requires Inv(s) && Enabled(s, Start(i))
    ensures Inv(Step(s, Start(i)))
    ensures AllDone(s, s.calls[i].key, i)
  {
    var s' := Step(s, Start(i));
    assert Chained(s, i);
    if s.calls[i].previous.Some? { ResolvedMeansDone(s, s.calls[i].previous.value); }
    forall j: nat | j < |s'.calls| ensures Chained(s', j) { assert Chained(s, j); }
    forall key ensures Tailed(s', key) { assert Tailed(s, key); }
  }

  lemma FinishKeepsInv(s: State, i: nat)
    requires Inv(s) && Enabled(s, Finish(i))
    ensures Inv(Step(s, Finish(i)))
  {
    var s' := Step(s, Finish(i));
    assert Chained(s, i);
    forall j: nat | j < |s'.calls| ensures Chained(s', j) { assert Chained(s, j); }
    forall key ensures Tailed(s', key) { assert Tailed(s, key); }
  }

  lemma StepKeepsInv(s: State, e: Event)
    requires Inv(s) && Enabled(s, e)
    ensures Inv(Step(s, e))
  {
    match e
    case Enter(key) => EnterKeepsInv(s, key);
    case Start(i) => StartKeepsInv(s, i);
    case Finish(i) => FinishKeepsInv(s, i);
  }

  // ---- whole runs ----

  lemma {:induction false} RunKeepsInv(states: seq<State>, events: seq<Event>, n: nat)
    requires IsRun(states, events) && n <= |events|
    ensures Inv(states[n])
  {
    if n > 0 {
      RunKeepsInv(states, events, n - 1);
      StepKeepsInv(states[n - 1], events[n - 1]);
    }
  }

  // Mutual exclusion and first-come order per requester: a call that runs, or has run, came after every
  // earlier call of its requester had finished.
  lemma FirstComeFirstServed(states: seq<State>, events: seq<Event>, n: nat, i: nat, j: nat)
    requires IsRun(states, events) && n <= |events|
    requires i < j < |states[n].calls| && states[n].calls[i].key == states[n].calls[j].key
    ensures !states[n].calls[j].phase.Waiting? ==> states[n].calls[i].phase.Finished?
    ensures !(states[n].calls[i].phase.Running? && states[n].calls[j].phase.Running?)
  {
    RunKeepsInv(states, events, n);
    assert Chained(states[n], j);
  }

  // A requester is in requesterTails exactly when some call of it has not finished.
  lemma TailsNameTheBusy(states: seq<State>, events: seq<Event>, n: nat, key: Address)
    requires IsRun(states, events) && n <= |events|
    ensures key in states[n].requesterTails <==>
            exists i :: 0 <= i < |states[n].calls| && states[n].calls[i].key == key
                        && !states[n].calls[i].phase.Finished?
  {
    RunKeepsInv(states, events, n);
    assert Tailed(states[n], key);
  }

  // Nobody waits for ever behind nobody: the first unfinished call of a requester runs or may start.
  lemma NoDeadlock(states: seq<State>, events: seq<Event>, n: nat, key: Address) returns (i: nat)
    requires IsRun(states, events) && n <= |events| && key in states[n].requesterTails
    ensures i < |states[n].calls| && states[n].calls[i].key == key
    ensures states[n].calls[i].phase.Running? || Enabled(states[n], Start(i))
  {
    RunKeepsInv(states, events, n);
    var s := states[n];
    assert Tailed(s, key);
    i := 0;
    while s.calls[i].key != key || s.calls[i].phase.Finished?
      invariant i <= s.requesterTails[key] && AllDone(s, key, i)
      decreases s.requesterTails[key] - i
    {
      i := i + 1;
    }
    assert Chained(s, i);
    if s.calls[i].previous.Some? { ResolvedMeansDone(s, s.calls[i].previous.value); }
  }

  // ---- the lock that IssuerProtocol uses ----

  predicate Holds(s: State, key: Address, i: nat) {
    i < |s.calls| && s.calls[i].key == key && s.calls[i].phase.Running?
  }

  // The chain is the plain lock per requester that the issuer's step system uses: a call starts only when
  // nobody holds its requester's lock, then it alone holds it, and finishing gives up just that.
  lemma ChainIsPlainLock(states: seq<State>, events: seq<Event>, n: nat)
    requires IsRun(states, events) && n < |events|
    ensures forall key, i: nat, j: nat | Holds(states[n], key, i) && Holds(states[n], key, j) :: i == j
    ensures var s, s', e := states[n], states[n + 1], events[n];
            && (e.Enter? ==> forall key, i: nat :: Holds(s', key, i) <==> Holds(s, key, i))
            && (e.Start? ==>
                  && e.call < |s.calls| && (forall i: nat :: !Holds(s, s.calls[e.call].key, i))
                  && forall key, i: nat ::
                       Holds(s', key, i) <==> Holds(s, key, i) || (i == e.call && key == s.calls[e.call].key))
            && (e.Finish? ==> forall key, i: nat :: Holds(s', key, i) <==> Holds(s, key, i) && i != e.call)
  {
    RunKeepsInv(states, events, n);
    RunKeepsInv(states, events, n + 1);
    var s, s', e := states[n], states[n + 1], events[n];
    forall key, i: nat, j: nat | Holds(s, key, i) && Holds(s, key, j) ensures i == j {
      assert Chained(s, i) && Chained(s, j);
    }
    if e.Start? {
      forall i: nat ensures !Holds(s, s.calls[e.call].key, i) {
        if i < |s.calls| && i != e.call { assert Chained(s', i) && Chained(s', e.call) && s'.calls[i] == s.calls[i]; }
      }
    }
  }
}

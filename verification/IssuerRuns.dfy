// Runs of the permit issuer that show why the theorems about it have their conditions.
module IssuerRuns {
  import opened Options
  import opened Permits
  import opened Leases
  import opened IssuerProtocol
  import opened IssuerSafety
  import opened IssuerTheorems

  lemma RunExtends(p: Policy, states: seq<State>, events: seq<Event>, e: Event, next: State)
    requires IsRun(p, states, events) && Enabled(p, states[|events|], e) && WellFormed(states[|events|])
    requires next == Step(p, states[|events|], e)
    ensures IsRun(p, states + [next], events + [e]) && (states + [next])[|events + [e]|] == next
  {
    var states', events' := states + [next], events + [e];
    forall k | 0 <= k < |events'|
      ensures Enabled(p, states'[k], events'[k])
              && (WellFormed(states'[k]) ==> states'[k + 1] == Step(p, states'[k], events'[k]))
    {
      if k < |events| { assert states'[k] == states[k] && states'[k + 1] == states[k + 1] && events'[k] == events[k]; }
    }
  }

  lemma ReachesNext(p: Policy, s: State, e: Event, next: State)
    requires Reachable(p, s) && Enabled(p, s, e) && WellFormed(s) && next == Step(p, s, e)
    ensures Reachable(p, next)
  {
    var states, events :| IsRun(p, states, events) && states[|events|] == s;
    RunExtends(p, states, events, e, next);
  }

  lemma Extend(p: Policy, s: State, e: Event)
    requires Reachable(p, s) && Enabled(p, s, e)
    ensures WellFormed(s) && Reachable(p, Step(p, s, e))
  {
    ReachableStays(p, s);
    ReachesNext(p, s, e, Step(p, s, e));
  }

  // State s with one more call, which holds the lock of its requester.
  function Working(s: State, t: nat, task: Task): State {
    s.(tasks := s.tasks[t := task], holder := s.holder[Requester(task) := t])
  }

  predicate Free(s: State, t: nat, requester: Address) {
    t !in s.tasks && requester !in s.holder
  }

  lemma Enters(p: Policy, s: State, t: nat, task: Task)
    requires Reachable(p, Advance(s, t, task)) && Queued(task) && Free(s, t, Requester(task))
    ensures Reachable(p, Working(s, t, Inside(task)))
  {
    Extend(p, Advance(s, t, task), Enter(t));
    assert Step(p, Advance(s, t, task), Enter(t)) == Working(s, t, Inside(task));
  }

  // ---- calls of issue ----

  lemma IssueEnters(p: Policy, s: State, t: nat, i: Intent)
    requires Reachable(p, s) && Free(s, t, i.requester) && 15 <= p.ttlSeconds <= 295
    ensures Reachable(p, Working(s, t, IssueEntered(i)))
  {
    Extend(p, s, CallIssue(t, i));
    Enters(p, s, t, IssueQueued(i));
  }

  lemma IssueReads(p: Policy, s: State, t: nat, i: Intent)
    requires Reachable(p, s) && Free(s, t, i.requester) && 15 <= p.ttlSeconds <= 295
    ensures Reachable(p, Working(s, t, IssueReading(i, s.clock)))
  {
    IssueEnters(p, s, t, i);
    Extend(p, Working(s, t, IssueEntered(i)), PolicyLive(t));
    assert Step(p, Working(s, t, IssueEntered(i)), PolicyLive(t)) == Working(s, t, IssueReading(i, s.clock));
  }

  lemma ReadAcquires(p: Policy, s: State, t: nat, i: Intent, now: int, id: Hash, store: Store)
    requires t in s.tasks && s.tasks[t] == IssueReading(i, now) && Coherent(s.store)
    requires AcquireLease(s.store, BuildLease(p, i, now, id, 0, 1), now) == (store, Acquired(id))
    ensures AfterChainRead(p, s, t, id, 0, 1)
            == Advance(s.(store := store, acquisitions := s.acquisitions + [Acquisition(id, s.clock)]), t,
                       IssueAcquired(i, now, id))
  {
  }

  lemma IssueAcquires(p: Policy, s: State, t: nat, i: Intent, now: int, id: Hash, store: Store)
    requires Reachable(p, Working(s, t, IssueReading(i, now))) && id !in s.store.leases && Coherent(s.store)
    requires AcquireLease(s.store, BuildLease(p, i, now, id, 0, 1), now) == (store, Acquired(id))
    ensures Reachable(p, Working(s.(store := store, acquisitions := s.acquisitions + [Acquisition(id, s.clock)]), t,
                                 IssueAcquired(i, now, id)))
  {
    var s' := s.(store := store, acquisitions := s.acquisitions + [Acquisition(id, s.clock)]);
    var reading := Working(s, t, IssueReading(i, now));
    Extend(p, reading, ChainRead(t, id, 0, 1));
    ReadAcquires(p, reading, t, i, now, id, store);
    assert Advance(Working(s', t, IssueReading(i, now)), t, IssueAcquired(i, now, id))
           == Working(s', t, IssueAcquired(i, now, id));
  }

  lemma IssueLeaves(p: Policy, s: State, t: nat, i: Intent, now: int, id: Hash)
    requires Reachable(p, Working(s, t, IssueAcquired(i, now, id))) && Free(s, t, i.requester)
    ensures Reachable(p, s)
  {
    Extend(p, Working(s, t, IssueAcquired(i, now, id)), Abort(t));
    assert Finish(Working(s, t, IssueAcquired(i, now, id)), t) == s;
  }

  // The lease is acquired and the call gives up before it signs.
  lemma IssueTakes(p: Policy, s: State, t: nat, i: Intent, now: int, id: Hash, store: Store)
    requires Reachable(p, Working(s, t, IssueReading(i, now))) && Free(s, t, i.requester)
    requires id !in s.store.leases && Coherent(s.store)
    requires AcquireLease(s.store, BuildLease(p, i, now, id, 0, 1), now) == (store, Acquired(id))
    ensures Reachable(p, s.(store := store, acquisitions := s.acquisitions + [Acquisition(id, s.clock)]))
  {
    IssueAcquires(p, s, t, i, now, id, store);
    IssueLeaves(p, s.(store := store, acquisitions := s.acquisitions + [Acquisition(id, s.clock)]), t, i, now, id);
  }

  // ---- submissions ----

  lemma SubmitEnters(p: Policy, s: State, t: nat, sub: Submission)
    requires Reachable(p, s) && Free(s, t, sub.requester)
    ensures Reachable(p, Working(s, t, SubmitEntered(sub)))
  {
    Extend(p, s, CallSubmit(t, sub));
    Enters(p, s, t, SubmitQueued(sub));
  }

  lemma SubmitLooks(p: Policy, s: State, t: nat, sub: Submission)
    requires Reachable(p, Working(s, t, SubmitEntered(sub))) && Indexed(s.store, sub.permitId)
    ensures Reachable(p, Working(s, t, SubmitLooked(sub, true)))
  {
    Extend(p, Working(s, t, SubmitEntered(sub)), Resume(t));
    assert Advance(Working(s, t, SubmitEntered(sub)), t, SubmitLooked(sub, true))
           == Working(s, t, SubmitLooked(sub, true));
  }

  lemma SubmitInspects(p: Policy, s: State, t: nat, sub: Submission)
    requires Reachable(p, Working(s, t, SubmitLooked(sub, true))) && Indexed(s.store, sub.permitId)
    requires s.store.leases[sub.permitId].requester == sub.requester && s.store.leases[sub.permitId].txHash.None?
    ensures Reachable(p, Working(s, t, SubmitInspecting(sub)))
  {
    var looked := Working(s, t, SubmitLooked(sub, true));
    Extend(p, looked, Resume(t));
    assert AfterSubmitResume(looked, t) == Advance(looked, t, SubmitInspecting(sub));
    assert Advance(looked, t, SubmitInspecting(sub)) == Working(s, t, SubmitInspecting(sub));
  }

  lemma InspectionMarks(s: State, t: nat, sub: Submission, i: Inspection, store: Store)
    requires t in s.tasks && s.tasks[t] == SubmitInspecting(sub) && sub.permitId in s.store.leases
    requires s.store.leases[sub.permitId].state.Leased? && Matches(s.store.leases[sub.permitId], i)
    requires MarkSubmitted(s.store, sub.permitId, sub.txHash) == (store, true)
    ensures AfterSubmitInspected(s, t, i)
            == Advance(s.(store := store, inspections := s.inspections + {(sub.txHash, i)}), t,
                       SubmitMarked(sub, i, true))
  {
  }

  lemma SubmitMarks(p: Policy, s: State, t: nat, sub: Submission, i: Inspection, store: Store)
    requires Reachable(p, Working(s, t, SubmitInspecting(sub))) && sub.permitId in s.store.leases
    requires s.store.leases[sub.permitId].state.Leased? && Matches(s.store.leases[sub.permitId], i)
    requires MarkSubmitted(s.store, sub.permitId, sub.txHash) == (store, true)
    ensures Reachable(p, Working(s.(store := store, inspections := s.inspections + {(sub.txHash, i)}), t,
                                 SubmitMarked(sub, i, true)))
  {
    var inspecting := Working(s, t, SubmitInspecting(sub));
    Extend(p, inspecting, ChainInspected(t, i));
    InspectionMarks(inspecting, t, sub, i, store);
    var marked := s.(store := store, inspections := s.inspections + {(sub.txHash, i)});
    assert Advance(Working(marked, t, SubmitInspecting(sub)), t, SubmitMarked(sub, i, true))
           == Working(marked, t, SubmitMarked(sub, i, true));
  }

  lemma SubmitEnds(p: Policy, s: State, t: nat, sub: Submission, i: Inspection)
    requires Reachable(p, Working(s, t, SubmitMarked(sub, i, true))) && i.Seen? && i.status.Pending?
    requires Free(s, t, sub.requester)
    ensures Reachable(p, s)
  {
    Extend(p, Working(s, t, SubmitMarked(sub, i, true)), Resume(t));
    assert Finish(Working(s, t, SubmitMarked(sub, i, true)), t) == s;
  }

  lemma SubmitConfirms(p: Policy, s: State, t: nat, sub: Submission, i: Inspection, store: Store)
    requires Reachable(p, Working(s, t, SubmitMarked(sub, i, true))) && i.Seen? && i.status.Success?
    requires sub.permitId in s.store.leases && i.tokenId == Some(s.store.leases[sub.permitId].labelHash)
    requires store == MarkConfirmed(s.store, sub.permitId, sub.txHash, i.tokenId.value).0 && Free(s, t, sub.requester)
    ensures Reachable(p, s.(store := store))
  {
    var marked := Working(s, t, SubmitMarked(sub, i, true));
    Extend(p, marked, Resume(t));
    assert AfterSubmitResume(marked, t) == Finish(marked.(store := store), t) == s.(store := store);
  }

  // A matching answer marks the lease submitted; with nothing to do, the call ends there.
  lemma SubmitArrives(p: Policy, s: State, t: nat, sub: Submission, i: Inspection, store: Store)
    requires Reachable(p, s) && Free(s, t, sub.requester) && Indexed(s.store, sub.permitId)
    requires s.store.leases[sub.permitId].requester == sub.requester && s.store.leases[sub.permitId].txHash.None?
    requires s.store.leases[sub.permitId].state.Leased? && Matches(s.store.leases[sub.permitId], i)
    requires MarkSubmitted(s.store, sub.permitId, sub.txHash) == (store, true)
    ensures var s' := s.(store := store, inspections := s.inspections + {(sub.txHash, i)});
            Reachable(p, Working(s', t, SubmitMarked(sub, i, true))) && (i.status.Pending? ==> Reachable(p, s'))
  {
    SubmitEnters(p, s, t, sub);
    SubmitLooks(p, s, t, sub);
    SubmitInspects(p, s, t, sub);
    SubmitMarks(p, s, t, sub, i, store);
    var s' := s.(store := store, inspections := s.inspections + {(sub.txHash, i)});
    if i.status.Pending? { SubmitEnds(p, s', t, sub, i); }
  }

  // ---- a reconcile that marks its lease expired ----

  // A reconcile whose answer is unknown after the lease has run out goes on to the expiry proof.
  lemma ReconcileEnters(p: Policy, s: State, t: nat, id: Hash)
    requires Reachable(p, s) && Indexed(s.store, id) && s.store.leases[id].state.Submitted?
    requires Free(s, t, s.store.leases[id].requester)
    ensures Reachable(p, Working(s, t, ReconcileEntered(id, s.store.leases[id].requester)))
  {
    Extend(p, s, CallReconcile(t, id));
    Enters(p, s, t, ReconcileQueued(id, s.store.leases[id].requester));
  }

  lemma ReconcileLooks(p: Policy, s: State, t: nat, id: Hash, o: Address)
    requires Reachable(p, Working(s, t, ReconcileEntered(id, o))) && Indexed(s.store, id)
    ensures Reachable(p, Working(s, t, ReconcileLooked(id, o, true)))
  {
    Extend(p, Working(s, t, ReconcileEntered(id, o)), Resume(t));
    assert Advance(Working(s, t, ReconcileEntered(id, o)), t, ReconcileLooked(id, o, true))
           == Working(s, t, ReconcileLooked(id, o, true));
  }

  lemma ReconcileInspects(p: Policy, s: State, t: nat, id: Hash, o: Address)
    requires Reachable(p, Working(s, t, ReconcileLooked(id, o, true))) && Indexed(s.store, id)
    requires s.store.leases[id].state.Submitted? && s.store.leases[id].txHash.Some?
    ensures Reachable(p, Working(s, t, ReconcileInspecting(id, o)))
  {
    Extend(p, Working(s, t, ReconcileLooked(id, o, true)), Resume(t));
    assert Advance(Working(s, t, ReconcileLooked(id, o, true)), t, ReconcileInspecting(id, o))
           == Working(s, t, ReconcileInspecting(id, o));
  }

  lemma ReconcileProves(p: Policy, s: State, t: nat, id: Hash, o: Address, tx: Hash)
    requires Reachable(p, Working(s, t, ReconcileInspecting(id, o))) && id in s.store.leases
    requires s.store.leases[id].txHash == Some(tx) && s.store.leases[id].expiresAt <= s.clock
    ensures Reachable(p, Working(s.(inspections := s.inspections + {(tx, Unknown)}), t, ReconcileProving(id, o)))
  {
    var inspecting := Working(s, t, ReconcileInspecting(id, o));
    Extend(p, inspecting, ChainInspected(t, Unknown));
    assert AfterReconcileInspected(inspecting, t, Unknown)
           == Working(s.(inspections := s.inspections + {(tx, Unknown)}), t, ReconcileProving(id, o));
  }

  lemma ProofLooksUp(p: Policy, s: State, t: nat, id: Hash, o: Address, tx: Hash, blockTimestamp: int)
    requires Reachable(p, Working(s, t, ReconcileProving(id, o))) && Indexed(s.store, id)
    requires s.store.leases[id].permit.validUntil < blockTimestamp && s.store.leases[id].txHash == Some(tx)
    ensures Reachable(p, Working(s.(proofs := s.proofs + {Expiry(id, blockTimestamp, false)}), t,
                                 Marking(id, o, tx, Expired, true)))
  {
    var proving := Working(s, t, ReconcileProving(id, o));
    var s' := s.(proofs := s.proofs + {Expiry(id, blockTimestamp, false)});
    Extend(p, proving, ExpiryProven(t, blockTimestamp, false));
    assert AfterProof(proving, t, blockTimestamp, false)
           == Advance(Working(s', t, ReconcileProving(id, o)), t, Marking(id, o, tx, Expired, true));
    assert Advance(Working(s', t, ReconcileProving(id, o)), t, Marking(id, o, tx, Expired, true))
           == Working(s', t, Marking(id, o, tx, Expired, true));
  }

  lemma MarkAssigns(p: Policy, s: State, t: nat, id: Hash, o: Address, tx: Hash, closing: LeaseState, store: Store)
    requires Reachable(p, Working(s, t, Marking(id, o, tx, closing, true))) && id in s.store.leases && Free(s, t, o)
    requires store == MarkClosed(s.store, id, tx, closing).0
    ensures Reachable(p, s.(store := store))
    ensures var marking := Working(s, t, Marking(id, o, tx, closing, true));
            WellFormed(marking) && Step(p, marking, Resume(t)) == s.(store := store)
  {
    var marking := Working(s, t, Marking(id, o, tx, closing, true));
    Extend(p, marking, Resume(t));
    assert AfterMarking(marking, t) == s.(store := store);
  }

  lemma ReconcileFinds(p: Policy, s: State, t: nat, id: Hash, tx: Hash, blockTimestamp: int)
    requires Reachable(p, s) && Indexed(s.store, id) && Free(s, t, s.store.leases[id].requester)
    requires s.store.leases[id].state.Submitted? && s.store.leases[id].txHash == Some(tx)
    requires s.store.leases[id].expiresAt <= s.clock && s.store.leases[id].permit.validUntil < blockTimestamp
    ensures var s' := s.(inspections := s.inspections + {(tx, Unknown)},
                         proofs := s.proofs + {Expiry(id, blockTimestamp, false)});
            Reachable(p, Working(s', t, Marking(id, s.store.leases[id].requester, tx, Expired, true)))
  {
    var o := s.store.leases[id].requester;
    ReconcileEnters(p, s, t, id);
    ReconcileLooks(p, s, t, id, o);
    ReconcileInspects(p, s, t, id, o);
    ReconcileProves(p, s, t, id, o, tx);
    ProofLooksUp(p, s.(inspections := s.inspections + {(tx, Unknown)}), t, id, o, tx, blockTimestamp);
  }

  // ---- three overlaps ----

  // Requester 1 takes issuanceNow 0 for label 100 and reads the chain slowly; meanwhile requester 2 leases the
  // label, gives up, and the lease runs out. Three runs go on from there, one for each way in which the lease
  // leaves the label free; then requester 1 acquires the label with its old issuanceNow.
  const TTL_180 := Policy(180, 7)
  const SLOW := Intent(1, "request-1", 100, 5)
  const OTHER := Intent(2, "request-2", 100, 6)
  const OTHER_LEASE := BuildLease(TTL_180, OTHER, 0, 50, 0, 1)
  const SLOW_LEASE := BuildLease(TTL_180, SLOW, 0, 51, 0, 1)
  const OTHER_STORE := Store(map[50 := OTHER_LEASE], map[100 := 50], [100], map[(2, "request-2") := 50], map[])
  const OTHER_LEFT := INITIAL.(store := OTHER_STORE, acquisitions := [Acquisition(50, 0)])

  // State s while requester 1 reads the chain.
  function WithSlow(s: State): State {
    Working(s, 0, IssueReading(SLOW, 0))
  }

  lemma SlowReads()
    ensures Reachable(TTL_180, WithSlow(INITIAL))
  {
    var none: seq<Event> := [];
    assert IsRun(TTL_180, [INITIAL], none) && [INITIAL][|none|] == INITIAL;
    IssueReads(TTL_180, INITIAL, 0, SLOW);
  }

  lemma OtherLeaves()
    ensures Reachable(TTL_180, WithSlow(OTHER_LEFT))
  {
    SlowReads();
    IssueReads(TTL_180, WithSlow(INITIAL), 1, OTHER);
    OtherIsPlaced();
    IssueTakes(TTL_180, WithSlow(INITIAL), 1, OTHER, 0, 50, OTHER_STORE);
    assert INITIAL.acquisitions + [Acquisition(50, 0)] == OTHER_LEFT.acquisitions;
  }

  lemma OtherIsPlaced()
    requires Coherent(EMPTY_STORE)
    ensures AcquireLease(EMPTY_STORE, OTHER_LEASE, 0) == (OTHER_STORE, Acquired(50))
  {
    assert Place(EMPTY_STORE, OTHER_LEASE) == OTHER_STORE;
  }

  lemma TimePasses(s: State, to: int)
    requires Reachable(TTL_180, WithSlow(s)) && s.clock <= to
    ensures Reachable(TTL_180, WithSlow(s.(clock := to)))
  {
    Extend(TTL_180, WithSlow(s), Tick(to));
  }

  // Leases a and b, neither of them confirmed, have one window for one name and two requesters.
  ghost predicate SameWindow(s: State, a: Hash, b: Hash) {
    && a in s.store.leases && b in s.store.leases
    && var la, lb := s.store.leases[a], s.store.leases[b];
       && la.labelHash == lb.labelHash && la.requester != lb.requester
       && !la.state.Confirmed? && !lb.state.Confirmed?
       && la.permit.validAfter == lb.permit.validAfter && la.permit.validUntil == lb.permit.validUntil
  }

  // The first and the last of a state's leases.
  ghost predicate Overlaps(s: State) {
    s.acquisitions != []
    && SameWindow(s, s.acquisitions[0].permitId, s.acquisitions[|s.acquisitions| - 1].permitId)
  }

  lemma SlowTakesOver(s: State) returns (s': State)
    requires Reachable(TTL_180, WithSlow(s)) && s.tasks == map[] && s.holder == map[] && Coherent(s.store)
    requires 51 !in s.store.leases && s.acquisitions != [] && s.acquisitions[0].permitId == 50 && 50 in s.store.leases
    requires s.store.leases[50].permit == OTHER_LEASE.permit && !s.store.leases[50].state.Confirmed?
    requires s.store.leases[50].labelHash == 100 && s.store.leases[50].requester == 2
    requires AcquireLease(s.store, SLOW_LEASE, 0) == (Place(s.store, SLOW_LEASE), Acquired(51))
    ensures Reachable(TTL_180, s') && Overlaps(s') && s'.store == Place(s.store, SLOW_LEASE)
    ensures s'.acquisitions == s.acquisitions + [Acquisition(51, s.clock)]
  {
    IssueTakes(TTL_180, s, 0, SLOW, 0, 51, Place(s.store, SLOW_LEASE));
    s' := s.(store := Place(s.store, SLOW_LEASE), acquisitions := s.acquisitions + [Acquisition(51, s.clock)]);
  }

  // First, a cleanup with its retention of 15 minutes removes the lease.
  const RUN_OUT := OTHER_LEFT.(clock := 1110000)
  const CLEANED := RUN_OUT.(store := Store(map[50 := OTHER_LEASE], map[], [], map[], map[]))

  // A cleanup drops the one lease that has run out.
  lemma LeaseIsSwept(s: Store)
    requires Coherent(s) && s.(leases := map[]) == OTHER_STORE.(leases := map[])
    requires s.leases.Keys == {50} && s.leases[50].expiresAt == 210000
    ensures Cleanup(s, 210000) == Store(s.leases, map[], [], map[], map[])
  {
    var swept := SweepRequests(s, 210000);
    assert swept.byLabel == map[] && swept.byRequest == map[] && swept.signed == map[];
    assert Kept([100], swept.byLabel.Keys) == Kept([], swept.byLabel.Keys);
    CleanupIsOneSweep(s, 210000);
  }

  lemma OtherIsCleaned()
    ensures Reachable(TTL_180, WithSlow(CLEANED))
  {
    OtherLeaves();
    TimePasses(OTHER_LEFT, 1110000);
    Extend(TTL_180, WithSlow(RUN_OUT), CleanupRuns(210000));
    LeaseIsSwept(OTHER_STORE);
  }

  // The delay in LivePermitsNeverCompete is needed: issuanceNow is taken before the chain reads, and a call
  // whose reads outlast another requester's reservation is issued the very same window for the same name.
  lemma SlowReadsOverlap() returns (p: Policy, s: State)
    ensures Reachable(p, s) && Overlaps(s) && |s.acquisitions| == 2
    ensures s.store.leases[s.acquisitions[0].permitId].state.Leased?
  {
    OtherIsCleaned();
    p := TTL_180;
    s := SlowTakesOver(CLEANED);
  }

  // Second, without any cleanup, a reconcile marks the lease expired after an expiry proof.
  const PENDING := Seen(Pending, 2, 7, 50, 2, 100, None)
  const SUBMITTED_STORE := OTHER_STORE.(leases := map[50 := OTHER_LEASE.(state := Submitted, txHash := Some(77))])
  const SUBMITTED := OTHER_LEFT.(store := SUBMITTED_STORE, inspections := {(77, PENDING)})
  const MARKED_STORE := OTHER_STORE.(leases := map[50 := OTHER_LEASE.(state := Expired, txHash := Some(77))])
  const FOUND := SUBMITTED.(clock := 210000, inspections := {(77, PENDING), (77, Unknown)},
                            proofs := {Expiry(50, 1000, false)})
  const MARKED := FOUND.(store := MARKED_STORE)

  lemma OtherIsPending()
    ensures Reachable(TTL_180, WithSlow(SUBMITTED))
  {
    OtherLeaves();
    assert OTHER_STORE.leases[50 := OTHER_LEASE.(state := Submitted, txHash := Some(77))] == SUBMITTED_STORE.leases;
    SubmitArrives(TTL_180, WithSlow(OTHER_LEFT), 1, Submission(50, 2, 77), PENDING, SUBMITTED_STORE);
    assert OTHER_LEFT.inspections + {(77, PENDING)} == {(77, PENDING)};
  }

  lemma OtherIsMarked()
    ensures Reachable(TTL_180, WithSlow(MARKED))
  {
    OtherIsPending();
    TimePasses(SUBMITTED, 210000);
    assert SUBMITTED_STORE.leases[50 := OTHER_LEASE.(state := Expired, txHash := Some(77))] == MARKED_STORE.leases;
    ReconcileFinds(TTL_180, WithSlow(SUBMITTED.(clock := 210000)), 1, 50, 77, 1000);
    assert SUBMITTED.inspections + {(77, Unknown)} == MARKED.inspections;
    assert SUBMITTED.proofs + {Expiry(50, 1000, false)} == MARKED.proofs;
    MarkAssigns(TTL_180, WithSlow(FOUND), 1, 50, 2, 77, Expired, MARKED_STORE);
  }

  lemma ExpiryProofOverlaps() returns (p: Policy, s: State)
    ensures Reachable(p, s) && Overlaps(s) && |s.acquisitions| == 2
    ensures forall q <- s.acquisitions :: Retained(s.store, q.permitId)
  {
    OtherIsMarked();
    p := TTL_180;
    SlowAfterMarked();
    s := SlowTakesOver(MARKED);
  }

  lemma SlowAfterMarked()
    ensures Coherent(MARKED_STORE)
    ensures AcquireLease(MARKED_STORE, SLOW_LEASE, 0) == (Place(MARKED_STORE, SLOW_LEASE), Acquired(51))
  {
  }

  // Third, with neither, a third requester takes the label over and registers the name.
  const THIRD := Intent(3, "request-3", 100, 8)
  const THIRD_LEASE := BuildLease(TTL_180, THIRD, 210000, 52, 0, 1)
  const SUCCESS := Seen(Success, 3, 7, 52, 3, 100, Some(100))
  const OTHER_EXPIRED := OTHER_LEASE.(state := Expired)
  const THIRD_STORE :=
    Store(map[50 := OTHER_EXPIRED, 52 := THIRD_LEASE], map[100 := 52], [100],
          map[(2, "request-2") := 50, (3, "request-3") := 52], map[])
  const THIRD_SUBMITTED :=
    THIRD_STORE.(leases := map[50 := OTHER_EXPIRED, 52 := THIRD_LEASE.(state := Submitted, txHash := Some(77))])
  const THIRD_CONFIRMED :=
    THIRD_STORE.(leases := map[50 := OTHER_EXPIRED,
                               52 := THIRD_LEASE.(state := Confirmed, txHash := Some(77), tokenId := Some(100))])
  const TAKEN := OTHER_LEFT.(clock := 210000, store := THIRD_STORE,
                             acquisitions := [Acquisition(50, 0), Acquisition(52, 210000)])
  const REGISTERED := TAKEN.(store := THIRD_CONFIRMED, inspections := {(77, SUCCESS)})

  lemma ThirdDisplaces()
    ensures Coherent(OTHER_STORE)
    ensures AcquireLease(OTHER_STORE, THIRD_LEASE, 210000) == (THIRD_STORE, Acquired(52))
  {
    assert Place(SetState(OTHER_STORE, 50, Expired), THIRD_LEASE) == THIRD_STORE;
  }

  lemma ThirdReads()
    ensures Reachable(TTL_180, Working(WithSlow(OTHER_LEFT.(clock := 210000)), 1, IssueReading(THIRD, 210000)))
  {
    OtherLeaves();
    TimePasses(OTHER_LEFT, 210000);
    IssueReads(TTL_180, WithSlow(OTHER_LEFT.(clock := 210000)), 1, THIRD);
  }

  lemma ThirdTakesOver()
    ensures Reachable(TTL_180, WithSlow(TAKEN))
  {
    ThirdReads();
    ThirdDisplaces();
    IssueTakes(TTL_180, WithSlow(OTHER_LEFT.(clock := 210000)), 1, THIRD, 210000, 52, THIRD_STORE);
    assert OTHER_LEFT.acquisitions + [Acquisition(52, 210000)] == TAKEN.acquisitions;
  }

  lemma ThirdRegisters()
    ensures Reachable(TTL_180, WithSlow(REGISTERED))
  {
    ThirdTakesOver();
    var sub := Submission(52, 3, 77);
    var submitted := TAKEN.(store := THIRD_SUBMITTED, inspections := {(77, SUCCESS)});
    ThirdMarks();
    SubmitArrives(TTL_180, WithSlow(TAKEN), 1, sub, SUCCESS, THIRD_SUBMITTED);
    assert TAKEN.inspections + {(77, SUCCESS)} == {(77, SUCCESS)};
    SubmitConfirms(TTL_180, WithSlow(submitted), 1, sub, SUCCESS, THIRD_CONFIRMED);
  }

  lemma ThirdMarks()
    ensures MarkSubmitted(THIRD_STORE, 52, 77) == (THIRD_SUBMITTED, true)
    ensures MarkConfirmed(THIRD_SUBMITTED, 52, 77, 100) == (THIRD_CONFIRMED, true)
  {
    assert THIRD_STORE.leases[52 := THIRD_LEASE.(state := Submitted, txHash := Some(77))] == THIRD_SUBMITTED.leases;
    var confirmed := THIRD_LEASE.(state := Confirmed, txHash := Some(77), tokenId := Some(100));
    assert THIRD_SUBMITTED.leases[52 := confirmed] == THIRD_CONFIRMED.leases;
  }

  lemma TakeoverOverlaps() returns (p: Policy, s: State)
    ensures Reachable(p, s) && Overlaps(s) && |s.acquisitions| == 3
    ensures forall q <- s.acquisitions :: Retained(s.store, q.permitId)
    ensures s.store.leases[s.acquisitions[0].permitId].txHash.None?
  {
    ThirdRegisters();
    p := TTL_180;
    SlowAfterThird();
    s := SlowTakesOver(REGISTERED);
    assert s.acquisitions == [Acquisition(50, 0), Acquisition(52, 210000), Acquisition(51, 210000)];
  }

  lemma SlowAfterThird()
    ensures Coherent(THIRD_CONFIRMED)
    ensures AcquireLease(THIRD_CONFIRMED, SLOW_LEASE, 0) == (Place(THIRD_CONFIRMED, SLOW_LEASE), Acquired(51))
    ensures forall id <- {50, 51, 52} :: Retained(Place(THIRD_CONFIRMED, SLOW_LEASE), id)
  {
  }

  // ---- a mark behind a cleanup ----

  // The condition in LeaseHistory is needed: a cleanup that runs between the lookup of a mark and its
  // assignment drops the lease, and the mark still changes it.
  const DROPPED := FOUND.(store := Store(SUBMITTED_STORE.leases, map[], [], map[], map[]))

  lemma OtherIsDropped()
    ensures Reachable(TTL_180, Working(WithSlow(DROPPED), 1, Marking(50, 2, 77, Expired, true)))
  {
    OtherIsPending();
    TimePasses(SUBMITTED, 210000);
    ReconcileFinds(TTL_180, WithSlow(SUBMITTED.(clock := 210000)), 1, 50, 77, 1000);
    assert SUBMITTED.inspections + {(77, Unknown)} == FOUND.inspections;
    assert SUBMITTED.proofs + {Expiry(50, 1000, false)} == FOUND.proofs;
    var found := Working(WithSlow(FOUND), 1, Marking(50, 2, 77, Expired, true));
    Extend(TTL_180, found, CleanupRuns(210000));
    LeaseIsSwept(SUBMITTED_STORE);
  }

  const DROPPED_MARKED := DROPPED.(store := DROPPED.store.(leases := MARKED_STORE.leases))

  lemma DroppedIsMarked()
    ensures MarkClosed(DROPPED.store, 50, 77, Expired).0 == DROPPED_MARKED.store
  {
    assert SUBMITTED_STORE.leases[50 := OTHER_LEASE.(state := Expired, txHash := Some(77))] == MARKED_STORE.leases;
  }

  lemma MarkedBehindCleanup() returns (p: Policy, s: State, e: Event)
    ensures Reachable(p, s) && WellFormed(s) && Enabled(p, s, e)
    ensures 50 in s.store.leases && !Indexed(s.store, 50) && s.store.leases[50].state.Submitted?
    ensures var s' := Step(p, s, e); 50 in s'.store.leases && s'.store.leases[50].state.Expired?
  {
    p, s, e := TTL_180, Working(WithSlow(DROPPED), 1, Marking(50, 2, 77, Expired, true)), Resume(1);
    OtherIsDropped();
    DroppedIsMarked();
    MarkAssigns(p, WithSlow(DROPPED), 1, 50, 2, 77, Expired, DROPPED_MARKED.store);
  }

  // ---- a late return ----

  // The condition in ReturnedInWindow is needed: a signer that answers late returns a permit that has ended.
  const SLOW_STORE := Store(map[51 := SLOW_LEASE], map[100 := 51], [100], map[(1, "request-1") := 51], map[])
  const SLOW_READING := WithSlow(INITIAL)
  const SLOW_ACQUIRED :=
    SLOW_READING.(store := SLOW_STORE, tasks := map[0 := IssueAcquired(SLOW, 0, 51)],
                  acquisitions := [Acquisition(51, 0)])
  const SLOW_SIGNING := SLOW_ACQUIRED.(tasks := map[0 := IssueSigning(SLOW, 0, 51)])
  const LATE := SLOW_SIGNING.(clock := 10000000)

  lemma SlowAcquires()
    ensures Reachable(TTL_180, SLOW_ACQUIRED)
  {
    SlowReads();
    Extend(TTL_180, SLOW_READING, ChainRead(0, 51, 0, 1));
    assert Step(TTL_180, SLOW_READING, ChainRead(0, 51, 0, 1)) == SLOW_ACQUIRED;
  }

  lemma SignerIsAsked()
    ensures Reachable(TTL_180, SLOW_SIGNING)
  {
    SlowAcquires();
    Extend(TTL_180, SLOW_ACQUIRED, Resume(0));
    var s := Step(TTL_180, SLOW_ACQUIRED, Resume(0));
    Extend(TTL_180, s, Resume(0));
    assert Step(TTL_180, s, Resume(0)) == SLOW_SIGNING;
  }

  lemma LateReturn() returns (p: Policy, s: State, r: Issued)
    ensures Reachable(p, s) && r in s.issued && !MeetsWindow(r.permit, Seconds(r.returnedAt))
  {
    SignerIsAsked();
    p := TTL_180;
    Extend(p, SLOW_SIGNING, Tick(10000000));
    assert Step(p, SLOW_SIGNING, Tick(10000000)) == LATE;
    Extend(p, LATE, SignerAnswers(0, 9));
    s := Step(p, LATE, SignerAnswers(0, 9));
    r := Issued(SLOW, SLOW_LEASE.permit, 9, 0, 10000000);
  }
}

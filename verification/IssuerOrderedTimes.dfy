// The permit issuer on runs where no lease is acquired with an issuanceNow behind the times by which leases
// have been given up: then the windows of competing permits are 25 seconds apart, whatever the delays.
module IssuerOrderedTimes {
  import opened Options
  import opened Permits
  import opened Leases
  import opened IssuerProtocol
  import opened IssuerSafety
  import opened IssuerTheorems

  predicate AcquiresNow(s: State, e: Event, s': State) {
    e.ChainRead? && e.task in s.tasks && s.tasks[e.task].IssueReading? && |s'.acquisitions| > |s.acquisitions|
  }

  // A reconcile marks its lease expired, after an expiry proof.
  predicate MarksExpired(s: State, e: Event, s': State) {
    && e.Resume? && e.task in s.tasks && s.tasks[e.task].Marking?
    && var id := s.tasks[e.task].permitId;
       && id in s.store.leases && !s.store.leases[id].state.Expired?
       && id in s'.store.leases && s'.store.leases[id].state.Expired?
  }

  // The time by which a step may give leases up that have run out: an acquisition displaces the lease of its
  // label, a cleanup drops leases, and a mark after an expiry proof expires one whose expiry the clock has reached.
  function TimeUsed(s: State, e: Event, s': State): Option<int> {
    match e
    case ChainRead(t, _, _, _) => if AcquiresNow(s, e, s') then Some(s.tasks[t].issuanceNow) else None
    case CleanupRuns(cutoff) => Some(cutoff)
    case Resume(t) =>
      if MarksExpired(s, e, s') then Some(s.store.leases[s.tasks[t].permitId].expiresAt) else None
    case _ => None
  }

  function Latest(time: int, used: Option<int>): int {
    if used.Some? && time < used.value then used.value else time
  }

  // The latest time used before event n.
  ghost function StoreTime(p: Policy, states: seq<State>, events: seq<Event>, n: nat): int
    requires IsRun(p, states, events) && n <= |events|
  {
    if n == 0 then 0
    else Latest(StoreTime(p, states, events, n - 1), TimeUsed(states[n - 1], events[n - 1], states[n]))
  }

  // No lease is acquired with an issuanceNow earlier than a time used before.
  ghost predicate InOrder(p: Policy, states: seq<State>, events: seq<Event>)
    requires IsRun(p, states, events)
  {
    forall n: nat | n < |events| && AcquiresNow(states[n], events[n], states[n + 1]) ::
      StoreTime(p, states, events, n) <= states[n].tasks[events[n].task].issuanceNow
  }

  // The state as the store knows the time.
  function At(s: State, time: int): State {
    s.(clock := time)
  }

  // A competing earlier lease was confirmed, or over when the later call took its issuanceNow.
  ghost predicate PairOrdered(p: Policy, s: State, a: Hash, b: Hash) {
    b in s.store.leases ==> PairApart(s, a, b, IssuedMs(p, s.store.leases[b]))
  }

  ghost predicate AllOrdered(p: Policy, s: State) {
    forall j, k | 0 <= j < k < |s.acquisitions| ::
        PairOrdered(p, s, s.acquisitions[j].permitId, s.acquisitions[k].permitId)
  }

  ghost predicate Ordered(p: Policy, s: State, time: int) {
    NothingLost(At(s, time)) && AllOrdered(p, s)
  }

  lemma LaterIsLost(s: State, time: int, later: int)
    requires NothingLost(At(s, time)) && time <= later
    ensures NothingLost(At(s, later))
  {
    forall id <- s.store.leases ensures StillExclusive(At(s, later), id) { assert StillExclusive(At(s, time), id); }
  }

  lemma WellFormedAt(s: State, time: int)
    requires WellFormed(s)
    ensures WellFormed(At(s, time))
  {
    forall t <- s.tasks ensures Grounded(At(s, time), s.tasks[t]) { assert Grounded(s, s.tasks[t]); }
  }

  lemma SameChainRead(p: Policy, s: State, t: nat, id: Hash, nonce: nat, amount: nat, time: int)
    requires Coherent(s.store) && t in s.tasks && s.tasks[t].IssueReading?
    ensures var r := AfterChainRead(p, At(s, time), t, id, nonce, amount);
            r.store == AfterChainRead(p, s, t, id, nonce, amount).store && r.clock == time
  {
  }

  lemma SameIssueResume(s: State, t: nat, time: int)
    requires t in s.tasks && (s.tasks[t].IssueAcquired? || s.tasks[t].IssueLooked?)
             && s.tasks[t].lease in s.store.leases
    ensures AfterIssueResume(At(s, time), t).store == AfterIssueResume(s, t).store
    ensures AfterIssueResume(At(s, time), t).clock == time
  {
  }

  lemma SameReconcileResume(s: State, t: nat, time: int)
    requires t in s.tasks && (s.tasks[t].ReconcileEntered? || s.tasks[t].ReconcileLooked?)
    requires s.tasks[t].permitId in s.store.leases
    ensures AfterReconcileResume(At(s, time), t).store == AfterReconcileResume(s, t).store
    ensures AfterReconcileResume(At(s, time), t).clock == time
  {
  }

  lemma SameSubmitResume(s: State, t: nat, time: int)
    requires t in s.tasks && (s.tasks[t].SubmitEntered? || s.tasks[t].SubmitLooked? || s.tasks[t].SubmitMarked?)
    requires Grounded(s, s.tasks[t])
    ensures AfterSubmitResume(At(s, time), t).store == AfterSubmitResume(s, t).store
    ensures AfterSubmitResume(At(s, time), t).clock == time
  {
  }

  lemma SameMarking(s: State, t: nat, time: int)
    requires t in s.tasks && s.tasks[t].Marking? && s.tasks[t].permitId in s.store.leases
    ensures AfterMarking(At(s, time), t).store == AfterMarking(s, t).store
    ensures AfterMarking(At(s, time), t).clock == time
  {
  }

  lemma SameResume(p: Policy, s: State, t: nat, time: int)
    requires WellFormed(s) && Enabled(p, s, Resume(t)) && WellFormed(At(s, time))
    ensures Step(p, At(s, time), Resume(t)).store == Step(p, s, Resume(t)).store
    ensures Step(p, At(s, time), Resume(t)).clock == time
  {
    assert Grounded(s, s.tasks[t]);
    if s.tasks[t].IssueAcquired? || s.tasks[t].IssueLooked? {
      SameIssueResume(s, t, time);
    } else if s.tasks[t].ReconcileEntered? || s.tasks[t].ReconcileLooked? {
      SameReconcileResume(s, t, time);
    } else if s.tasks[t].Marking? {
      SameMarking(s, t, time);
    } else {
      SameSubmitResume(s, t, time);
    }
  }

  // A step but for Tick does the same to the store at any later time, and a cleanup from its cutoff on.
  lemma SameStore(p: Policy, s: State, e: Event, time: int)
    requires WellFormed(s) && Enabled(p, s, e) && !e.Tick?
    requires e.CleanupRuns? ==> e.cutoff <= time
    ensures WellFormed(At(s, time)) && Enabled(p, At(s, time), e)
    ensures var s0' := Step(p, At(s, time), e); s0'.store == Step(p, s, e).store && s0'.clock == time
  {
    WellFormedAt(s, time);
    match e
    case ChainRead(t, id, nonce, amount) => SameChainRead(p, s, t, id, nonce, amount, time);
    case Resume(t) => SameResume(p, s, t, time);
    case ChainInspected(t, i) => SameInspected(p, s, t, i, time);
    case ExpiryProven(t, ts, used) => assert Grounded(s, s.tasks[t]);
    case SignerAnswers(t, signature) => assert Grounded(s, s.tasks[t]);
    case _ =>
  }

  lemma SameInspected(p: Policy, s: State, t: nat, i: Inspection, time: int)
    requires WellFormed(s) && Enabled(p, s, ChainInspected(t, i)) && WellFormed(At(s, time))
    ensures Step(p, At(s, time), ChainInspected(t, i)).store == Step(p, s, ChainInspected(t, i)).store
    ensures Step(p, At(s, time), ChainInspected(t, i)).clock == time
  {
    assert Grounded(s, s.tasks[t]);
    if s.tasks[t].SubmitInspecting? {
      SameSubmitInspected(s, t, i, time);
    } else if i.Unknown? || i.status.Pending? {
      SameWaiting(s, t, i, time);
    } else {
      SameAnswered(s, t, i, time);
    }
  }

  lemma SameWaiting(s: State, t: nat, i: Inspection, time: int)
    requires t in s.tasks && s.tasks[t].ReconcileInspecting? && (i.Unknown? || i.status.Pending?)
    requires s.tasks[t].permitId in s.store.leases && s.store.leases[s.tasks[t].permitId].txHash.Some?
    ensures AfterReconcileInspected(At(s, time), t, i).store == s.store == AfterReconcileInspected(s, t, i).store
    ensures AfterReconcileInspected(At(s, time), t, i).clock == time
  {
  }

  lemma SameAnswered(s: State, t: nat, i: Inspection, time: int)
    requires t in s.tasks && s.tasks[t].ReconcileInspecting? && i.Seen? && !i.status.Pending?
    requires s.tasks[t].permitId in s.store.leases && s.store.leases[s.tasks[t].permitId].txHash.Some?
    ensures AfterReconcileInspected(At(s, time), t, i).store == AfterReconcileInspected(s, t, i).store
    ensures AfterReconcileInspected(At(s, time), t, i).clock == time
  {
    var l := s.store.leases[s.tasks[t].permitId];
    assert At(s, time).store == s.store && At(s, time).tasks == s.tasks;
    if Matches(l, i) { assert i.Seen?; }
  }

  lemma SameSubmitInspected(s: State, t: nat, i: Inspection, time: int)
    requires t in s.tasks && s.tasks[t].SubmitInspecting? && s.tasks[t].submission.permitId in s.store.leases
    ensures AfterSubmitInspected(At(s, time), t, i).store == AfterSubmitInspected(s, t, i).store
    ensures AfterSubmitInspected(At(s, time), t, i).clock == time
  {
    var id := s.tasks[t].submission.permitId;
    assert At(s, time).store == s.store && At(s, time).tasks == s.tasks;
    if !i.Unknown? && Matches(s.store.leases[id], i) {
      assert Matches(At(s, time).store.leases[id], i);
    }
  }

  lemma ActorHoldsAt(p: Policy, s: State, e: Event, time: int)
    requires Enabled(p, s, e) && !e.Tick? && !e.ExpiryProven? && ActorHolds(p, s, e)
    requires e.Resume? ==> !s.tasks[e.task].Marking?
    requires e.ChainRead? ==> s.tasks[e.task].issuanceNow <= time
    requires Enabled(p, At(s, time), e)
    ensures ActorHolds(p, At(s, time), e)
  {
  }

  lemma StepKeepsLost(p: Policy, s: State, e: Event, s': State, time: int, later: int)
    requires Inv(p, s) && Enabled(p, s, e) && Ordered(p, s, time) && s' == Step(p, s, e)
    requires later == Latest(time, TimeUsed(s, e, s'))
    ensures NothingLost(At(s', later))
  {
    LaterIsLost(s, time, later);
    if e.Tick? {
      SameLost(At(s, later), At(s', later));
    } else if e.ExpiryProven? {
      SameLost(At(s, later), At(s', later));
    } else if e.Resume? && s.tasks[e.task].Marking? {
      MarkKeepsLost(p, s, e, s', later);
    } else if e.ChainRead? && !AcquiresNow(s, e, s') {
      RefusalChangesNothing(p, s, e, s');
      SameLost(At(s, later), At(s', later));
    } else {
      ActorRelies(p, s, e);
      SameStore(p, s, e, later);
      BoundAt(s, later);
      ActorHoldsAt(p, s, e, later);
      StepKeepsLostAt(p, At(s, later), e);
      SameLost(Step(p, At(s, later), e), At(s', later));
    }
  }

  lemma StepKeepsLostAt(p: Policy, s: State, e: Event)
    requires WellFormed(s) && Enabled(p, s, e) && AllBound(s) && ActorHolds(p, s, e) && NothingLost(s)
    ensures NothingLost(Step(p, s, e))
  {
    StepKeeps(p, s, e);
    DeltaKeepsExclusive(p, Actor(s, e), s, Step(p, s, e));
  }

  lemma CloseKeepsLost(s: State, s': State, id: Hash, tx: Hash, closing: LeaseState)
    requires id in s.store.leases && s'.clock == s.clock && s'.store == MarkClosed(s.store, id, tx, closing).0
    requires NothingLost(s) && (closing.Failed? || closing.ManualReview? || closing.Expired?)
    requires s'.store.leases[id].state.Expired? ==>
               s.store.leases[id].state.Expired? || s.store.leases[id].expiresAt <= s.clock
    ensures NothingLost(s')
  {
    forall other <- s'.store.leases ensures StillExclusive(s', other) { assert StillExclusive(s, other); }
  }

  // A mark that does not expire its lease leaves it exclusive or as it was.
  lemma MarkKeepsLost(p: Policy, s: State, e: Event, s': State, later: int)
    requires Inv(p, s) && Enabled(p, s, e) && e.Resume? && s.tasks[e.task].Marking? && s' == Step(p, s, e)
    requires NothingLost(At(s, later))
    requires MarksExpired(s, e, s') ==> s.store.leases[s.tasks[e.task].permitId].expiresAt <= later
    ensures NothingLost(At(s', later))
  {
    var mark := s.tasks[e.task];
    assert TaskHolds(p, s, mark);
    if mark.found {
      CloseKeepsLost(At(s, later), At(s', later), mark.permitId, mark.txHash, mark.closing);
    } else {
      SameLost(At(s, later), At(s', later));
    }
  }

  lemma RefusalChangesNothing(p: Policy, s: State, e: Event, s': State)
    requires WellFormed(s) && Enabled(p, s, e) && e.ChainRead? && s' == Step(p, s, e) && !AcquiresNow(s, e, s')
    ensures s'.store == s.store
  {
    var task := s.tasks[e.task];
    var c := BuildLease(p, task.intent, task.issuanceNow, e.permitId, e.nonce, e.amount);
    ChainReadAcquires(p, s, e.task, e.permitId, e.nonce, e.amount);
    AcquireDisplaces(s.store, c, task.issuanceNow);
  }

  lemma BoundAt(s: State, time: int)
    requires AllBound(s)
    ensures AllBound(At(s, time))
  {
    forall id <- s.store.leases ensures Bound(At(s, time), s.store.leases[id]) {
      BoundSeesMore(s, At(s, time), s.store.leases[id]);
    }
  }

  lemma SameLost(a: State, b: State)
    requires a.store == b.store && a.clock == b.clock && NothingLost(a)
    ensures NothingLost(b)
  {
    forall id <- b.store.leases ensures StillExclusive(b, id) { assert StillExclusive(a, id); }
  }

  lemma PairStays(p: Policy, actor: Address, s: State, s': State, a: Hash, b: Hash)
    requires Delta(p, actor, s, s') && a in s.store.leases && b in s.store.leases && PairOrdered(p, s, a, b)
    ensures PairOrdered(p, s', a, b)
  {
    assert LeaseMoves(actor, s, s', b);
    DeltaKeepsPair(p, actor, s, s', a, b, IssuedMs(p, s.store.leases[b]));
  }

  lemma PairsStay(p: Policy, actor: Address, s: State, s': State)
    requires Delta(p, actor, s, s') && AcquisitionsHold(p, s) && AllOrdered(p, s) && s.acquisitions <= s'.acquisitions
    ensures forall j, k | 0 <= j < k < |s.acquisitions| ::
              PairOrdered(p, s', s'.acquisitions[j].permitId, s'.acquisitions[k].permitId)
  {
    forall j, k | 0 <= j < k < |s.acquisitions|
      ensures PairOrdered(p, s', s'.acquisitions[j].permitId, s'.acquisitions[k].permitId)
    {
      assert s'.acquisitions[j] == s.acquisitions[j] && s'.acquisitions[k] == s.acquisitions[k];
      assert AcquisitionHolds(p, s, s.acquisitions[j]) && AcquisitionHolds(p, s, s.acquisitions[k]);
      PairStays(p, actor, s, s', s.acquisitions[j].permitId, s.acquisitions[k].permitId);
    }
  }

  lemma PairsGrow(p: Policy, s: State, s': State, id: Hash)
    requires s.acquisitions <= s'.acquisitions && |s'.acquisitions| <= |s.acquisitions| + 1
    requires |s'.acquisitions| > |s.acquisitions| ==>
               s'.acquisitions[|s.acquisitions|].permitId == id
               && forall j | 0 <= j < |s.acquisitions| :: PairOrdered(p, s', s.acquisitions[j].permitId, id)
    requires forall j, k | 0 <= j < k < |s.acquisitions| ::
               PairOrdered(p, s', s'.acquisitions[j].permitId, s'.acquisitions[k].permitId)
    ensures AllOrdered(p, s')
  {
  }

  lemma NewPairs(p: Policy, s: State, e: Event, s': State, time: int)
    requires Inv(p, s) && Enabled(p, s, e) && s' == Step(p, s, e) && e.ChainRead? && Ordered(p, s, time)
    requires |s'.acquisitions| > |s.acquisitions| && time <= s.tasks[e.task].issuanceNow
    ensures forall j | 0 <= j < |s.acquisitions| :: PairOrdered(p, s', s.acquisitions[j].permitId, e.permitId)
  {
    forall j | 0 <= j < |s.acquisitions| ensures PairOrdered(p, s', s.acquisitions[j].permitId, e.permitId) {
      assert AcquisitionHolds(p, s, s.acquisitions[j]);
      NewPair(p, s, e, s', time, s.acquisitions[j].permitId);
    }
  }

  lemma StepKeepsPairs(p: Policy, s: State, e: Event, s': State, time: int)
    requires Inv(p, s) && Enabled(p, s, e) && Ordered(p, s, time) && s' == Step(p, s, e)
    requires AcquiresNow(s, e, s') ==> time <= s.tasks[e.task].issuanceNow
    ensures AllOrdered(p, s')
  {
    ActorRelies(p, s, e);
    StepKeeps(p, s, e);
    Acquired(p, s, e, s');
    PairsStay(p, Actor(s, e), s, s');
    if |s'.acquisitions| > |s.acquisitions| {
      NewPairs(p, s, e, s', time);
      PairsGrow(p, s, s', e.permitId);
    } else {
      PairsGrow(p, s, s', 0);
    }
  }

  // Acquisitions grow by at most the lease of this step.
  lemma Acquired(p: Policy, s: State, e: Event, s': State)
    requires WellFormed(s) && Enabled(p, s, e) && s' == Step(p, s, e)
    ensures s.acquisitions <= s'.acquisitions && |s'.acquisitions| <= |s.acquisitions| + 1
    ensures |s'.acquisitions| > |s.acquisitions| ==>
              e.ChainRead? && s'.acquisitions[|s.acquisitions|].permitId == e.permitId
  {
    if e.ChainRead? {
      ChainReadAcquires(p, s, e.task, e.permitId, e.nonce, e.amount);
    } else {
      LeasesOnlyGrow(p, s, e);
    }
  }

  lemma NewPair(p: Policy, s: State, e: Event, s': State, time: int, a: Hash)
    requires Inv(p, s) && Enabled(p, s, e) && s' == Step(p, s, e) && e.ChainRead? && a in s.store.leases
    requires |s'.acquisitions| > |s.acquisitions|
    requires NothingLost(At(s, time)) && time <= s.tasks[e.task].issuanceNow
    ensures PairOrdered(p, s', a, e.permitId)
  {
    var task := s.tasks[e.task];
    var now := task.issuanceNow;
    var c := BuildLease(p, task.intent, now, e.permitId, e.nonce, e.amount);
    ChainReadAcquires(p, s, e.task, e.permitId, e.nonce, e.amount);
    AcquireDisplaces(s.store, c, now);
    LaterIsLost(s, time, now);
    AcquiredApart(p, At(s, now), At(s', now), c, now, a);
    assert IssuedMs(p, c) == now;
  }

  lemma {:induction false} RunIsOrdered(p: Policy, states: seq<State>, events: seq<Event>, n: nat)
    requires IsRun(p, states, events) && InOrder(p, states, events) && n <= |events|
    ensures Ordered(p, states[n], StoreTime(p, states, events, n))
  {
    if n > 0 {
      var s, e, time := states[n - 1], events[n - 1], StoreTime(p, states, events, n - 1);
      var later := StoreTime(p, states, events, n);
      RunIsOrdered(p, states, events, n - 1);
      RunStays(p, states, events, n - 1);
      StepKeepsLost(p, s, e, states[n], time, later);
      StepKeepsPairs(p, s, e, states[n], time);
    }
  }

  // On such runs, of any two leases of one label or one requester the earlier one was confirmed on chain, or the
  // two permits' windows are at least 25 seconds apart.
  lemma OrderedWindowsApart(p: Policy, states: seq<State>, events: seq<Event>, n: nat, j: nat, k: nat)
    requires IsRun(p, states, events) && InOrder(p, states, events) && n <= |events| && j < k < |states[n].acquisitions|
    ensures var s := states[n];
            var a, b := s.acquisitions[j].permitId, s.acquisitions[k].permitId;
            && a != b && a in s.store.leases && b in s.store.leases
            && (Competes(s.store.leases[a], s.store.leases[b]) ==>
                  s.store.leases[a].state.Confirmed?
                  || s.store.leases[a].permit.validUntil + 25 <= s.store.leases[b].permit.validAfter)
  {
    RunIsOrdered(p, states, events, n);
    RunStays(p, states, events, n);
    var s := states[n];
    var a, b := s.acquisitions[j].permitId, s.acquisitions[k].permitId;
    assert AcquisitionHolds(p, s, s.acquisitions[j]) && AcquisitionHolds(p, s, s.acquisitions[k]);
    assert PairOrdered(p, s, a, b);
    var la, lb := s.store.leases[a], s.store.leases[b];
    if Competes(la, lb) && !la.state.Confirmed? {
      WindowsApart(p, la, lb, Acquisition(b, IssuedMs(p, lb)));
    }
  }
}

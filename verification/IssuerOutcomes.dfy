// What the calls of the permit issuer lead to, event by event and in terms of lease states and permit fields:
// the permit that issue builds and returns, the lock of its calls, and what submissions, reconciles and expiry
// proofs make of a lease.
module IssuerOutcomes {
  import opened Options
  import opened Permits
  import opened Leases
  import opened LeaseAnswers
  import opened IssuerProtocol
  import opened IssuerSafety
  import opened IssuerTheorems

  // ---- the permit of a lease ----

  // The permit of every lease is for the lease's own label and requester, who is also the executor.
  lemma PermitsNameTheirLease(p: Policy, s: State, id: Hash)
    requires Reachable(p, s) && id in s.store.leases
    ensures var l := s.store.leases[id];
            && l.permit.labelHash == l.labelHash && l.permit.requester == l.requester
            && l.permit.executor == l.requester && l.permit.controller == p.controller
            && l.permit.permitId == l.permitId == id && l.permit.chainId == 5042
  {
    ReachableStays(p, s);
    assert BuiltByIssue(p, s.store.leases[id]);
  }

  // The lease that a call with this intent builds at this time out of what it read from the chain.
  predicate IsBuiltFrom(p: Policy, l: LeaseView, i: Intent, now: int, id: Hash, nonce: nat, amount: nat) {
    && l.labelHash == i.labelHash && l.requester == i.requester && l.requestId == i.requestId
    && l.fingerprint == i.fingerprint && l.permitId == id && l.expiresAt == now + p.ttlSeconds * 1000 + 30000
    && l.permit.labelHash == i.labelHash && l.permit.requester == i.requester && l.permit.executor == i.requester
    && l.permit.controller == p.controller && l.permit.chainId == 5042 && l.permit.permitId == id
    && l.permit.amount == amount && l.permit.nonce == nonce && l.permit.issuedAt == now / 1000
    && l.permit.validAfter == now / 1000 - 5 && l.permit.validUntil == (now + p.ttlSeconds * 1000) / 1000
  }

  lemma SameLeaseIsBuilt(p: Policy, a: LeaseView, b: LeaseView, i: Intent, now: int, id: Hash, nonce: nat, amount: nat)
    requires IsBuiltFrom(p, a, i, now, id, nonce, amount) && SameIdentity(a, b)
    ensures IsBuiltFrom(p, b, i, now, id, nonce, amount)
  {
  }

  // Event k is the chain read that acquired this lease.
  ghost predicate AcquiredAt(p: Policy, states: seq<State>, events: seq<Event>, k: nat, l: LeaseView)
    requires IsRun(p, states, events) && k < |events|
  {
    && events[k].ChainRead? && events[k].task in states[k].tasks && states[k].tasks[events[k].task].IssueReading?
    && var task := states[k].tasks[events[k].task];
       IsBuiltFrom(p, l, task.intent, task.issuanceNow, events[k].permitId, events[k].nonce, events[k].amount)
  }

  lemma NewLeaseIsBuilt(p: Policy, s: State, e: Event, s': State, id: Hash)
    requires Inv(p, s) && Enabled(p, s, e) && s' == Step(p, s, e) && id in s'.store.leases && id !in s.store.leases
    ensures e.ChainRead?
    ensures var task := s.tasks[e.task];
            IsBuiltFrom(p, s'.store.leases[id], task.intent, task.issuanceNow, e.permitId, e.nonce, e.amount)
  {
    if e.ChainRead? {
      var task := s.tasks[e.task];
      var c := BuildLease(p, task.intent, task.issuanceNow, e.permitId, e.nonce, e.amount);
      ChainReadAcquires(p, s, e.task, e.permitId, e.nonce, e.amount);
      AcquireDisplaces(s.store, c, task.issuanceNow);
    } else {
      LeasesOnlyGrow(p, s, e);
    }
  }

  // Every lease was built by one chain read, from its amount and nonce and from the intent of its call.
  lemma {:induction false} LeasesAreBuilt(p: Policy, states: seq<State>, events: seq<Event>, n: nat, id: Hash)
    returns (k: nat)
    requires IsRun(p, states, events) && n <= |events| && id in states[n].store.leases
    ensures k < n && AcquiredAt(p, states, events, k, states[n].store.leases[id]) && 0 < events[k].amount
  {
    RunStays(p, states, events, n - 1);
    var s, e, s' := states[n - 1], events[n - 1], states[n];
    if id in s.store.leases {
      k := LeasesAreBuilt(p, states, events, n - 1, id);
      StepFollows(p, s, e, id);
      var task := states[k].tasks[events[k].task];
      SameLeaseIsBuilt(p, s.store.leases[id], s'.store.leases[id], task.intent, task.issuanceNow,
                       events[k].permitId, events[k].nonce, events[k].amount);
    } else {
      NewLeaseIsBuilt(p, s, e, s', id);
      k := n - 1;
    }
  }

  // ---- the permit that is returned ----

  // What a call returns is for its own requester, out of the lease of its own request and fingerprint.
  lemma ReturnsAreForTheirCall(p: Policy, s: State, r: Issued)
    requires Reachable(p, s) && r in s.issued
    ensures var id := r.permit.permitId;
            && id in s.store.leases && s.store.leases[id].permit == r.permit
            && s.store.leases[id].requestId == r.intent.requestId
            && s.store.leases[id].fingerprint == r.intent.fingerprint
            && s.store.leases[id].requester == r.permit.requester == r.permit.executor == r.intent.requester
  {
    ReachableStays(p, s);
    assert IssuedIsStored(s, r);
    PermitsNameTheirLease(p, s, r.permit.permitId);
  }

  predicate WasCalled(events: seq<Event>, n: nat, i: Intent)
    requires n <= |events|
  {
    exists k | 0 <= k < n :: events[k].CallIssue? && events[k].intent == i
  }

  lemma StepKeepsIntent(p: Policy, s: State, e: Event, s': State, t: nat)
    requires WellFormed(s) && Enabled(p, s, e) && s' == Step(p, s, e) && t in s'.tasks && IsIssue(s'.tasks[t])
    ensures e == CallIssue(t, s'.tasks[t].intent)
            || (t in s.tasks && IsIssue(s.tasks[t]) && s.tasks[t].intent == s'.tasks[t].intent)
  {
    if Inner(e) { StepMovesTask(p, s, e); }
  }

  lemma {:induction false} TaskWasCalled(p: Policy, states: seq<State>, events: seq<Event>, n: nat, t: nat)
    requires IsRun(p, states, events) && n <= |events| && t in states[n].tasks && IsIssue(states[n].tasks[t])
    ensures WasCalled(events, n, states[n].tasks[t].intent)
  {
    RunStays(p, states, events, n - 1);
    StepKeepsIntent(p, states[n - 1], events[n - 1], states[n], t);
    if t in states[n - 1].tasks && IsIssue(states[n - 1].tasks[t])
       && states[n - 1].tasks[t].intent == states[n].tasks[t].intent {
      TaskWasCalled(p, states, events, n - 1, t);
    }
  }

  lemma NewReturnIsOfItsTask(p: Policy, s: State, e: Event, s': State, r: Issued)
    requires WellFormed(s) && Enabled(p, s, e) && s' == Step(p, s, e) && r in s'.issued && r !in s.issued
    ensures (e.Resume? || e.SignerAnswers?) && e.task in s.tasks && IsIssue(s.tasks[e.task])
    ensures s.tasks[e.task].intent == r.intent
  {
    OnlyIssueReturns(p, s, e);
  }

  lemma {:induction false} ReturnWasCalled(p: Policy, states: seq<State>, events: seq<Event>, n: nat, r: Issued)
    requires IsRun(p, states, events) && n <= |events| && r in states[n].issued
    ensures WasCalled(events, n, r.intent)
  {
    RunStays(p, states, events, n - 1);
    if r in states[n - 1].issued {
      ReturnWasCalled(p, states, events, n - 1, r);
    } else {
      NewReturnIsOfItsTask(p, states[n - 1], events[n - 1], states[n], r);
      TaskWasCalled(p, states, events, n - 1, events[n - 1].task);
    }
  }

  // The fingerprint is a digest that covers the label.
  ghost predicate FingerprintsCoverLabels(events: seq<Event>) {
    forall j, k | 0 <= j < |events| && 0 <= k < |events| && events[j].CallIssue? && events[k].CallIssue? ::
      events[j].intent.fingerprint == events[k].intent.fingerprint ==>
        events[j].intent.labelHash == events[k].intent.labelHash
  }

  // Whichever call built the lease, the permit that a call returns is for the label that this call asked for.
  lemma ReturnsAreForTheirLabel(p: Policy, states: seq<State>, events: seq<Event>, n: nat, r: Issued)
    requires IsRun(p, states, events) && n <= |events| && r in states[n].issued && FingerprintsCoverLabels(events)
    ensures r.permit.labelHash == r.intent.labelHash
  {
    var id := r.permit.permitId;
    Prefix(p, states, events, n);
    ReturnsAreForTheirCall(p, states[n], r);
    PermitsNameTheirLease(p, states[n], id);
    var k := LeasesAreBuilt(p, states, events, n, id);
    TaskWasCalled(p, states, events, k, events[k].task);
    ReturnWasCalled(p, states, events, n, r);
  }

  lemma Prefix(p: Policy, states: seq<State>, events: seq<Event>, n: nat)
    requires IsRun(p, states, events) && n <= |events|
    ensures Reachable(p, states[n])
  {
    assert IsRun(p, states[..n + 1], events[..n]) && states[..n + 1][|events[..n]|] == states[n];
  }

  // ---- what each state rests on ----

  // The transaction came from the lease's requester to the controller and registers this permit and label.
  predicate IsAbout(p: Policy, l: LeaseView, i: Inspection) {
    i.Seen? && i.from == l.requester && i.to == p.controller && i.permitId == l.permitId && i.requester == l.requester
    && i.labelHash == l.labelHash
  }

  predicate ShowsToken(p: Policy, l: LeaseView, i: Inspection) {
    IsAbout(p, l, i) && i.status == Success && i.tokenId == Some(l.labelHash)
  }

  predicate ShowsRevert(p: Policy, l: LeaseView, i: Inspection) {
    IsAbout(p, l, i) && i.status == Reverted
  }

  lemma MatchingIsAbout(p: Policy, s: State, id: Hash, i: Inspection)
    requires Inv(p, s) && id in s.store.leases
    ensures Matches(s.store.leases[id], i) <==> IsAbout(p, s.store.leases[id], i)
  {
    assert BuiltByIssue(p, s.store.leases[id]);
  }

  // An answer about the lease's own transaction.
  ghost predicate Answered(s: State, l: LeaseView, i: Inspection) {
    l.txHash.Some? && (l.txHash.value, i) in s.inspections
  }

  // A block after the permit's end showed whether the permit had been used.
  ghost predicate Ended(s: State, l: LeaseView, used: bool) {
    exists proof <- s.proofs ::
      proof.permitId == l.permitId && l.permit.validUntil < proof.blockTimestamp && proof.usedPermit == used
  }

  // Each state of a lease with the answers it rests on.
  lemma StatesRestOnAnswers(p: Policy, s: State, id: Hash)
    requires Reachable(p, s) && id in s.store.leases
    ensures var l := s.store.leases[id];
            && (l.txHash.Some? ==> exists i :: Answered(s, l, i) && IsAbout(p, l, i))
            && match l.state
               case Leased => l.txHash.None?
               case Submitted => l.txHash.Some?
               case Confirmed => exists i :: Answered(s, l, i) && ShowsToken(p, l, i)
               case Failed => exists i :: Answered(s, l, i) && ShowsRevert(p, l, i)
               case ManualReview =>
                 || Ended(s, l, true)
                 || exists i :: Answered(s, l, i) && i.Seen? && i.status != Pending && !ShowsToken(p, l, i)
                                && !ShowsRevert(p, l, i)
               case Expired =>
                 && l.expiresAt <= s.clock
                 && (l.txHash.Some? ==> Ended(s, l, false) || exists i :: Answered(s, l, i) && ShowsRevert(p, l, i))
               case Released => false
  {
    ReachableStays(p, s);
    var l := s.store.leases[id];
    assert Bound(s, l) && StillExclusive(s, id);
    if l.txHash.Some? {
      var i :| SeenBy(s, l, i);
      MatchingIsAbout(p, s, id, i);
      assert Answered(s, l, i) && IsAbout(p, l, i);
    }
    match l.state
    case Confirmed =>
      var i :| ProvenBy(s, l, i);
      MatchingIsAbout(p, s, id, i);
      assert Answered(s, l, i) && ShowsToken(p, l, i);
    case Failed => RevertIsShown(p, s, id);
    case ManualReview =>
      if !EndedBy(s, l, true) {
        var i :| RefutedBy(s, l, l.txHash.value, i);
        MatchingIsAbout(p, s, id, i);
        assert Answered(s, l, i) && !ShowsToken(p, l, i) && !ShowsRevert(p, l, i);
      }
    case Expired => if l.txHash.Some? && !EndedBy(s, l, false) { RevertIsShown(p, s, id); }
    case _ =>
  }

  lemma RevertIsShown(p: Policy, s: State, id: Hash)
    requires Inv(p, s) && id in s.store.leases && exists i :: RevertedBy(s, s.store.leases[id], i)
    ensures exists i :: Answered(s, s.store.leases[id], i) && ShowsRevert(p, s.store.leases[id], i)
  {
    var i :| RevertedBy(s, s.store.leases[id], i);
    MatchingIsAbout(p, s, id, i);
    assert Answered(s, s.store.leases[id], i) && ShowsRevert(p, s.store.leases[id], i);
  }

  // A submitted lease is marked expired only once a block after its permit's end showed the permit unused.
  lemma ExpiryRestsOnProof(p: Policy, s: State, e: Event, id: Hash)
    requires Reachable(p, s) && Enabled(p, s, e) && id in s.store.leases && s.store.leases[id].state.Submitted?
    ensures WellFormed(s)
    ensures var s' := Step(p, s, e);
            id in s'.store.leases && (s'.store.leases[id].state.Expired? ==> Ended(s', s.store.leases[id], false))
  {
    ReachableStays(p, s);
    ActorRelies(p, s, e);
    StepKeeps(p, s, e);
    MovedExpiry(Actor(s, e), s, Step(p, s, e), id);
  }

  lemma MovedExpiry(actor: Address, s: State, s': State, id: Hash)
    requires id in s.store.leases && LeaseMoves(actor, s, s', id) && s.store.leases[id].state.Submitted?
    ensures id in s'.store.leases
    ensures s'.store.leases[id].state.Expired? ==> Ended(s', s.store.leases[id], false)
  {
  }

  lemma NewProofIsAnswer(p: Policy, s: State, e: Event, s': State, proof: Expiry)
    requires WellFormed(s) && Enabled(p, s, e) && s' == Step(p, s, e) && proof in s'.proofs && proof !in s.proofs
    ensures e.ExpiryProven? && e.blockTimestamp == proof.blockTimestamp && e.usedPermit == proof.usedPermit
    ensures e.task in s.tasks && s.tasks[e.task].ReconcileProving? && s.tasks[e.task].permitId == proof.permitId
  {
  }

  // A recorded proof was an answer to a call that asked about this permit.
  lemma {:induction false} ProofsWereAnswers(p: Policy, states: seq<State>, events: seq<Event>, n: nat, proof: Expiry)
    returns (k: nat)
    requires IsRun(p, states, events) && n <= |events| && proof in states[n].proofs
    ensures k < n && events[k].ExpiryProven?
    ensures events[k].blockTimestamp == proof.blockTimestamp && events[k].usedPermit == proof.usedPermit
    ensures events[k].task in states[k].tasks && states[k].tasks[events[k].task].ReconcileProving?
    ensures states[k].tasks[events[k].task].permitId == proof.permitId
  {
    RunStays(p, states, events, n - 1);
    if proof in states[n - 1].proofs {
      k := ProofsWereAnswers(p, states, events, n - 1, proof);
    } else {
      NewProofIsAnswer(p, states[n - 1], events[n - 1], states[n], proof);
      k := n - 1;
    }
  }

  // The transaction that a call asks the chain about.
  ghost predicate AsksAbout(s: State, t: nat, tx: Hash)
    requires t in s.tasks
  {
    || (s.tasks[t].SubmitInspecting? && s.tasks[t].submission.txHash == tx)
    || (s.tasks[t].ReconcileInspecting? && s.tasks[t].permitId in s.store.leases
        && s.store.leases[s.tasks[t].permitId].txHash == Some(tx))
  }

  lemma NewInspectionIsAnswer(p: Policy, s: State, e: Event, s': State, tx: Hash, i: Inspection)
    requires WellFormed(s) && Enabled(p, s, e) && s' == Step(p, s, e)
    requires (tx, i) in s'.inspections && (tx, i) !in s.inspections
    ensures e.ChainInspected? && e.inspection == i && e.task in s.tasks && AsksAbout(s, e.task, tx)
  {
  }

  lemma {:induction false} InspectionsWereAnswers(p: Policy, states: seq<State>, events: seq<Event>, n: nat, tx: Hash,
                                                  i: Inspection)
    returns (k: nat)
    requires IsRun(p, states, events) && n <= |events| && (tx, i) in states[n].inspections
    ensures k < n && events[k].ChainInspected? && events[k].inspection == i
    ensures events[k].task in states[k].tasks && AsksAbout(states[k], events[k].task, tx)
  {
    RunStays(p, states, events, n - 1);
    if (tx, i) in states[n - 1].inspections {
      k := InspectionsWereAnswers(p, states, events, n - 1, tx, i);
    } else {
      NewInspectionIsAnswer(p, states[n - 1], events[n - 1], states[n], tx, i);
      k := n - 1;
    }
  }

  // ---- what one event leads to ----

  ghost predicate Leads(p: Policy, s: State, e: Event, s': State) {
    Reachable(p, s) && Enabled(p, s, e) && WellFormed(s) && s' == Step(p, s, e)
  }

  // The call of task t is over, and nothing but what it has seen has changed.
  predicate JustEnds(s: State, s': State, t: nat) {
    && t !in s'.tasks && s'.store == s.store && s'.issued == s.issued && s'.acquisitions == s.acquisitions
  }

  // Task t goes on, and nothing but what it has seen has changed.
  predicate GoesOn(s: State, s': State, t: nat, task: Task) {
    && t in s'.tasks && s'.tasks[t] == task && s'.store == s.store && s'.issued == s.issued
    && s'.acquisitions == s.acquisitions
  }

  // ---- calls and their lock ----

  // The requester whose lock a call takes: of the intent, of the submission, or of the lease to reconcile.
  predicate LocksFor(t: Task, r: Address) {
    if t.ReconcileQueued? || t.ReconcileEntered? || t.ReconcileLooked? || t.ReconcileInspecting?
       || t.ReconcileProving? || t.Marking?
    then t.owner == r
    else if t.SubmitQueued? || t.SubmitEntered? || t.SubmitLooked? || t.SubmitInspecting? || t.SubmitMarked?
    then t.submission.requester == r
    else t.intent.requester == r
  }

  predicate Waits(t: Task) {
    t.IssueQueued? || t.SubmitQueued? || t.ReconcileQueued?
  }

  lemma LockDecides(s: State, t: nat, r: Address)
    requires LockHeld(s) && t in s.tasks && Waits(s.tasks[t]) && LocksFor(s.tasks[t], r)
    ensures Requester(s.tasks[t]) !in s.holder <==>
            forall b <- s.tasks :: LocksFor(s.tasks[b], r) ==> Waits(s.tasks[b])
  {
    if r in s.holder {
      var b := s.holder[r];
      assert LocksFor(s.tasks[b], r) && !Waits(s.tasks[b]);
    }
  }

  lemma LockIsExclusive(s: State, a: nat, b: nat, r: Address)
    requires LockHeld(s) && a in s.tasks && b in s.tasks && !Waits(s.tasks[a]) && !Waits(s.tasks[b])
    requires LocksFor(s.tasks[a], r) && LocksFor(s.tasks[b], r)
    ensures a == b
  {
  }

  // Of one requester's calls at most one is past its queue, and a call that closes or reconciles a lease holds the
  // lock of that lease's requester.
  lemma OneCallPerRequester(p: Policy, s: State, a: nat, b: nat, r: Address)
    requires Reachable(p, s) && a in s.tasks && b in s.tasks && !Waits(s.tasks[a]) && !Waits(s.tasks[b])
    requires LocksFor(s.tasks[a], r) && LocksFor(s.tasks[b], r)
    ensures a == b
    ensures var t := s.tasks[a];
            t.ReconcileEntered? || t.ReconcileLooked? || t.ReconcileInspecting? || t.ReconcileProving? || t.Marking? ==>
              t.permitId in s.store.leases && s.store.leases[t.permitId].requester == r
  {
    ReachableStays(p, s);
    LockIsExclusive(s, a, b, r);
    assert TaskHolds(p, s, s.tasks[a]);
  }

  // Nothing but the task changes.
  predicate Begins(s: State, s': State, t: nat, task: Task) {
    && t !in s.tasks && s' == s.(tasks := s.tasks[t := task])
  }

  // A call to issue starts only with a TTL in 15..295, and reconcile takes up submitted leases of the label index.
  lemma CallsBegin(p: Policy, s: State, s': State, t: nat, i: Intent, sub: Submission, id: Hash)
    requires Reachable(p, s)
    ensures Enabled(p, s, CallIssue(t, i)) <==> t !in s.tasks && 14 < p.ttlSeconds < 296
    ensures Leads(p, s, CallIssue(t, i), s') ==> Begins(s, s', t, IssueQueued(i))
    ensures Enabled(p, s, CallSubmit(t, sub)) <==> t !in s.tasks
    ensures Leads(p, s, CallSubmit(t, sub), s') ==> Begins(s, s', t, SubmitQueued(sub))
    ensures Enabled(p, s, CallReconcile(t, id)) <==>
            t !in s.tasks && id in s.store.leases && InLabelIndex(s.store, id)
            && s.store.leases[id].state == Submitted
    ensures Leads(p, s, CallReconcile(t, id), s') ==>
              id in s.store.leases && Begins(s, s', t, ReconcileQueued(id, s.store.leases[id].requester))
  {
    ReachableStays(p, s);
    FoundIsIndexed(s.store, id);
  }

  // A waiting call gets in exactly when no call of its requester is inside, and goes on with what it was called for.
  lemma EnterDecides(p: Policy, s: State, t: nat, r: Address)
    requires Reachable(p, s) && t in s.tasks && Waits(s.tasks[t]) && LocksFor(s.tasks[t], r)
    ensures Enabled(p, s, Enter(t)) <==> forall b <- s.tasks :: LocksFor(s.tasks[b], r) ==> Waits(s.tasks[b])
  {
    ReachableStays(p, s);
    LockDecides(s, t, r);
  }

  lemma EntryGoesOn(p: Policy, s: State, s': State, t: nat)
    requires Leads(p, s, Enter(t), s')
    ensures t in s.tasks && Waits(s.tasks[t]) && s'.clock == s.clock
    ensures GoesOn(s, s', t, match s.tasks[t]
                             case IssueQueued(i) => IssueEntered(i)
                             case SubmitQueued(sub) => SubmitEntered(sub)
                             case ReconcileQueued(id, o) => ReconcileEntered(id, o)
                             case other => other)
  {
  }

  // A call that throws changes nothing but that it is over.
  lemma AbortDecides(p: Policy, s: State, s': State, t: nat)
    requires Reachable(p, s)
    ensures Enabled(p, s, Abort(t)) <==> t in s.tasks && !Waits(s.tasks[t])
    ensures Leads(p, s, Abort(t), s') ==> JustEnds(s, s', t) && s'.tasks == s.tasks - {t} && s'.clock == s.clock
  {
  }

  // ---- issue ----

  // issue takes its time once the live policy has been checked.
  lemma PolicyDecides(p: Policy, s: State, s': State, t: nat)
    requires Leads(p, s, PolicyLive(t), s')
    ensures t in s.tasks && s.tasks[t].IssueEntered? && GoesOn(s, s', t, IssueReading(s.tasks[t].intent, s.clock))
  {
  }

  // The chain reads decide: a known request goes on with its own lease when the fingerprint is the same and
  // fails otherwise; a new one fails while another lease is in the way, and gets a lease of its own otherwise.
  lemma ReadsDecide(p: Policy, s: State, s': State, t: nat, id: Hash, nonce: nat, amount: nat)
    requires Leads(p, s, ChainRead(t, id, nonce, amount), s')
    ensures t in s.tasks && s.tasks[t].IssueReading? && Coherent(s.store)
    ensures var i, now := s.tasks[t].intent, s.tasks[t].issuanceNow;
            var key := (i.requester, i.requestId);
            if key in s.store.byRequest then
              if s.store.leases[s.store.byRequest[key]].fingerprint == i.fingerprint
              then GoesOn(s, s', t, IssueAcquired(i, now, s.store.byRequest[key]))
              else JustEnds(s, s', t)
            else if exists other :: StandsInTheWay(s.store, i.requester, i.labelHash, now, other)
            then JustEnds(s, s', t)
            else
              && t in s'.tasks && s'.tasks[t] == IssueAcquired(i, now, id) && s'.issued == s.issued
              && s'.acquisitions == s.acquisitions + [Acquisition(id, s.clock)]
              && s'.clock == s.clock && s'.store.signed == s.store.signed
              && id in s'.store.leases && Has(s'.store.leases[id], Leased, None, None)
              && IsBuiltFrom(p, s'.store.leases[id], i, now, id, nonce, amount)
  {
    ReachableStays(p, s);
    var i, now := s.tasks[t].intent, s.tasks[t].issuanceNow;
    var c := BuildLease(p, i, now, id, nonce, amount);
    AcquireAnswers(s.store, c, now);
    ChainReadAcquires(p, s, t, id, nonce, amount);
    if AcquireLease(s.store, c, now).1.Acquired? { AcquireWrites(s.store, c, now); }
  }

  // An acquired lease whose permit or reservation is over by issuanceNow fails the call.
  lemma AgeDecides(p: Policy, s: State, s': State, t: nat)
    requires Leads(p, s, Resume(t), s') && s.tasks[t].IssueAcquired?
    ensures s.tasks[t].lease in s.store.leases
    ensures var i, now, id := s.tasks[t].intent, s.tasks[t].issuanceNow, s.tasks[t].lease;
            var l := s.store.leases[id];
            if l.permit.validUntil < now / 1000 || l.expiresAt <= now then JustEnds(s, s', t)
            else
              GoesOn(s, s', t, IssueLooked(i, now, id, if id in s.store.signed then Some(s.store.signed[id]) else None))
  {
    assert Grounded(s, s.tasks[t]);
  }

  // The call returns this permit with this signature, and its lock is free again.
  predicate Returns(s: State, s': State, t: nat, permit: Permit, signature: Hash)
    requires t in s.tasks && IsIssue(s.tasks[t]) && !s.tasks[t].IssueQueued? && !s.tasks[t].IssueEntered?
  {
    && t !in s'.tasks && s'.acquisitions == s.acquisitions
    && s'.issued == s.issued + {Issued(s.tasks[t].intent, permit, signature, s.tasks[t].issuanceNow, s.clock)}
  }

  lemma SignedDecides(p: Policy, s: State, s': State, t: nat)
    requires Leads(p, s, Resume(t), s') && s.tasks[t].IssueLooked?
    ensures s.tasks[t].lease in s.store.leases
    ensures match s.tasks[t].existing
            case Some(stored) => Returns(s, s', t, stored.permit, stored.signature) && s'.store == s.store
            case None =>
              if s.store.leases[s.tasks[t].lease].state == Leased
              then GoesOn(s, s', t, IssueSigning(s.tasks[t].intent, s.tasks[t].issuanceNow, s.tasks[t].lease))
              else JustEnds(s, s', t)
  {
    assert Grounded(s, s.tasks[t]);
  }

  // The signer's answer is stored and returned, unless another one is stored already.
  lemma SignerDecides(p: Policy, s: State, s': State, t: nat, signature: Hash)
    requires Leads(p, s, SignerAnswers(t, signature), s')
    ensures t in s.tasks && s.tasks[t].IssueSigning? && s.tasks[t].lease in s.store.leases
    ensures var id := s.tasks[t].lease;
            var permit := s.store.leases[id].permit;
            if id in s.store.signed && s.store.signed[id].signature != signature then JustEnds(s, s', t)
            else
              && Returns(s, s', t, permit, signature)
              && s'.store == s.store.(signed := s.store.signed[id := SignedPermit(permit, signature)])
  {
    assert Grounded(s, s.tasks[t]);
    SignatureIsImmutable(s.store, s.tasks[t].lease, s.store.leases[s.tasks[t].lease].permit, signature);
  }

  // A retry of a request that is retained, signed and not over by then returns the stored permit and signature,
  // whatever the chain reads say, and changes nothing.
  lemma RepeatIsReturned(p: Policy, s: State, s1: State, s2: State, s3: State, t: nat, id: Hash, nonce: nat,
                         amount: nat)
    requires Leads(p, s, ChainRead(t, id, nonce, amount), s1)
    requires Leads(p, s1, Resume(t), s2) && Leads(p, s2, Resume(t), s3) && Coherent(s.store)
    requires var key := (s.tasks[t].intent.requester, s.tasks[t].intent.requestId);
             && key in s.store.byRequest && s.store.byRequest[key] in s.store.signed
             && var l, now := s.store.leases[s.store.byRequest[key]], s.tasks[t].issuanceNow;
                l.fingerprint == s.tasks[t].intent.fingerprint && now / 1000 <= l.permit.validUntil && now < l.expiresAt
    ensures var stored := s.store.signed[s.store.byRequest[(s.tasks[t].intent.requester, s.tasks[t].intent.requestId)]];
            Returns(s, s3, t, stored.permit, stored.signature) && s3.store == s.store
  {
    ReadsDecide(p, s, s1, t, id, nonce, amount);
    AgeDecides(p, s1, s2, t);
    SignedDecides(p, s2, s3, t);
  }

  // The lease that a call has just acquired is young enough, and unsigned.
  lemma NewIsSigned(p: Policy, s: State, s1: State, s2: State, t: nat)
    requires Leads(p, s, Resume(t), s1) && Leads(p, s1, Resume(t), s2) && s.tasks[t].IssueAcquired?
    requires s.tasks[t].lease in s.store.leases && s.tasks[t].lease !in s.store.signed
    requires var l, now := s.store.leases[s.tasks[t].lease], s.tasks[t].issuanceNow;
             l.state == Leased && l.permit.validUntil == (now + p.ttlSeconds * 1000) / 1000
             && l.expiresAt == now + p.ttlSeconds * 1000 + 30000
    ensures GoesOn(s, s2, t, IssueSigning(s.tasks[t].intent, s.tasks[t].issuanceNow, s.tasks[t].lease))
    ensures s2.clock == s.clock
  {
    ReachableStays(p, s);
    AgeDecides(p, s, s1, t);
    SignedDecides(p, s1, s2, t);
  }

  // A new request with nobody in the way returns a permit for its own label and requester, signed and stored.
  lemma NewIsReturned(p: Policy, s: State, s1: State, s2: State, s3: State, s4: State, t: nat, id: Hash, nonce: nat,
                      amount: nat, signature: Hash)
    requires Leads(p, s, ChainRead(t, id, nonce, amount), s1) && Leads(p, s1, Resume(t), s2)
    requires Leads(p, s2, Resume(t), s3) && Leads(p, s3, SignerAnswers(t, signature), s4)
    requires var i := s.tasks[t].intent;
             && (i.requester, i.requestId) !in s.store.byRequest
             && forall other :: !StandsInTheWay(s.store, i.requester, i.labelHash, s.tasks[t].issuanceNow, other)
    ensures id in s4.store.leases && id in s4.store.signed
    ensures IsBuiltFrom(p, s4.store.leases[id], s.tasks[t].intent, s.tasks[t].issuanceNow, id, nonce, amount)
    ensures s4.store.signed[id] == SignedPermit(s4.store.leases[id].permit, signature) && t !in s4.tasks
    ensures var returned := Issued(s.tasks[t].intent, s4.store.leases[id].permit, signature, s.tasks[t].issuanceNow,
                                   s.clock);
            s4.issued == s.issued + {returned}
  {
    ReadsDecide(p, s, s1, t, id, nonce, amount);
    assert id !in s.store.signed by { UnsignedIsNew(p, s, id); }
    NewIsSigned(p, s1, s2, s3, t);
    SignerDecides(p, s3, s4, t, signature);
  }

  lemma UnsignedIsNew(p: Policy, s: State, id: Hash)
    requires Reachable(p, s) && id !in s.store.leases
    ensures id !in s.store.signed
  {
    ReachableStays(p, s);
  }

  // ---- submissions ----

  // A submission goes to the chain when its lease is in the label index, belongs to the requester and has no
  // transaction yet; one that is bound already gets its stored answer, or fails on another transaction.
  predicate NeedsInspection(l: LeaseView, sub: Submission) {
    && l.requester == sub.requester
    && match l.txHash
       case None => true
       case Some(tx) => tx == sub.txHash && (l.state == Leased || l.state == Expired || l.state == Released)
  }

  lemma StoreIsFiled(p: Policy, s: State, id: Hash)
    requires Reachable(p, s)
    ensures Coherent(s.store) && (Indexed(s.store, id) <==> InLabelIndex(s.store, id))
  {
    ReachableStays(p, s);
    FoundIsIndexed(s.store, id);
  }

  lemma FieldsOf(p: Policy, s: State, id: Hash)
    requires Reachable(p, s) && id in s.store.leases
    ensures var l := s.store.leases[id];
            && !l.state.Released? && (l.tokenId.Some? <==> l.state.Confirmed?) && (l.state.Leased? ==> l.txHash.None?)
            && (l.state.Submitted? || l.state.Failed? || l.state.ManualReview? ==> l.txHash.Some?)
  {
    ReachableStays(p, s);
    assert Bound(s, s.store.leases[id]);
  }

  lemma SubmissionLooks(p: Policy, s: State, s': State, t: nat)
    requires Leads(p, s, Resume(t), s') && s.tasks[t].SubmitEntered?
    ensures var sub := s.tasks[t].submission;
            GoesOn(s, s', t, SubmitLooked(sub, InLabelIndex(s.store, sub.permitId)))
  {
    StoreIsFiled(p, s, s.tasks[t].submission.permitId);
  }

  lemma SubmissionIsChecked(p: Policy, s: State, s': State, t: nat)
    requires Leads(p, s, Resume(t), s') && s.tasks[t].SubmitLooked?
    ensures s.tasks[t].found ==> s.tasks[t].submission.permitId in s.store.leases
    ensures var sub := s.tasks[t].submission;
            if s.tasks[t].found && NeedsInspection(s.store.leases[sub.permitId], sub)
            then GoesOn(s, s', t, SubmitInspecting(sub)) else JustEnds(s, s', t)
  {
    assert Grounded(s, s.tasks[t]);
    if s.tasks[t].found { FieldsOf(p, s, s.tasks[t].submission.permitId); }
  }

  // A lease that is inspected for a submission is neither confirmed, failed nor reviewed, so the missing-binding
  // error is never thrown.
  lemma InspectedIsOpen(p: Policy, s: State, t: nat)
    requires Reachable(p, s) && t in s.tasks && s.tasks[t].SubmitInspecting?
    ensures var id := s.tasks[t].submission.permitId;
            id in s.store.leases && (s.store.leases[id].state.Leased? || s.store.leases[id].state.Expired?)
  {
    ReachableStays(p, s);
    assert TaskHolds(p, s, s.tasks[t]);
  }

  // The lease is marked submitted with this transaction, when it is in the label index.
  ghost predicate Records(s: State, s': State, t: nat, sub: Submission, i: Inspection)
    requires sub.permitId in s.store.leases
  {
    var found := InLabelIndex(s.store, sub.permitId);
    && t in s'.tasks && s'.tasks[t] == SubmitMarked(sub, i, found) && s'.issued == s.issued
    && OnlyMarks(s.store, s'.store, sub.permitId)
    && if found
       then sub.permitId in s'.store.leases && Has(s'.store.leases[sub.permitId], Submitted, Some(sub.txHash),
                                                   s.store.leases[sub.permitId].tokenId)
       else s'.store == s.store
  }

  lemma SubmittedRecords(s: State, s': State, t: nat, sub: Submission, i: Inspection)
    requires Filed(s.store) && sub.permitId in s.store.leases && s.store.leases[sub.permitId].state == Leased
    requires t in s'.tasks && s'.issued == s.issued
    requires var (store, marked) := MarkSubmitted(s.store, sub.permitId, sub.txHash);
             s'.store == store && s'.tasks[t] == SubmitMarked(sub, i, marked)
    ensures Records(s, s', t, sub, i)
  {
    SubmittedMarks(s.store, sub.permitId, sub.txHash);
  }

  // Only an answer about this very lease is recorded, and only on a lease that is still leased.
  lemma SubmissionIsInspected(p: Policy, s: State, s': State, t: nat, i: Inspection)
    requires Leads(p, s, ChainInspected(t, i), s') && s.tasks[t].SubmitInspecting?
    ensures s.tasks[t].submission.permitId in s.store.leases
    ensures var sub := s.tasks[t].submission;
            var l := s.store.leases[sub.permitId];
            if IsAbout(p, l, i) && l.state == Leased then Records(s, s', t, sub, i) else JustEnds(s, s', t)
  {
    var sub := s.tasks[t].submission;
    InspectedIsOpen(p, s, t);
    StoreIsFiled(p, s, sub.permitId);
    AboutIsMatching(p, s, sub.permitId, i);
    if IsAbout(p, s.store.leases[sub.permitId], i) && s.store.leases[sub.permitId].state == Leased {
      SubmittedRecords(s, s', t, sub, i);
    }
  }

  // What a recorded submission becomes: confirmed with the token of the label, pending, or closed.
  function Closing(l: LeaseView, i: Inspection): Option<LeaseState>
    requires i.Seen?
  {
    match i.status
    case Pending => None
    case Reverted => Some(Failed)
    case Invalid => Some(ManualReview)
    case Success => if i.tokenId == Some(l.labelHash) then None else Some(ManualReview)
  }

  lemma SubmissionIsClosed(p: Policy, s: State, s': State, t: nat)
    requires Leads(p, s, Resume(t), s') && s.tasks[t].SubmitMarked? && s.tasks[t].inspection.Seen?
    ensures s.tasks[t].submission.permitId in s.store.leases
    ensures var sub, i := s.tasks[t].submission, s.tasks[t].inspection;
            var l := s.store.leases[sub.permitId];
            if !s.tasks[t].marked || i.status == Pending then JustEnds(s, s', t)
            else Closing(l, i).Some? ==>
                   GoesOn(s, s', t, Marking(sub.permitId, sub.requester, sub.txHash, Closing(l, i).value,
                                            InLabelIndex(s.store, sub.permitId)))
  {
    StoreIsFiled(p, s, s.tasks[t].submission.permitId);
    assert Grounded(s, s.tasks[t]);
  }

  lemma SubmissionIsConfirmed(p: Policy, s: State, s': State, t: nat)
    requires Leads(p, s, Resume(t), s') && s.tasks[t].SubmitMarked? && s.tasks[t].inspection.Seen?
    ensures s.tasks[t].submission.permitId in s.store.leases
    ensures var sub, i := s.tasks[t].submission, s.tasks[t].inspection;
            s.tasks[t].marked && i.status != Pending && Closing(s.store.leases[sub.permitId], i).None? ==>
              Confirms(s, s', t, sub.permitId, sub.txHash)
  {
    StoreIsFiled(p, s, s.tasks[t].submission.permitId);
    assert Grounded(s, s.tasks[t]);
    var sub, i := s.tasks[t].submission, s.tasks[t].inspection;
    if s.tasks[t].marked && i.status == Success && i.tokenId == Some(s.store.leases[sub.permitId].labelHash) {
      ConfirmedEnds(s, s', t, sub.permitId, sub.txHash);
    }
  }

  // The call is over; the lease is confirmed with its own label as token, when it is found submitted with this
  // transaction, and nothing changes otherwise.
  ghost predicate Confirms(s: State, s': State, t: nat, id: Hash, tx: Hash)
    requires id in s.store.leases
  {
    && t !in s'.tasks && s'.issued == s.issued && s'.acquisitions == s.acquisitions && OnlyMarks(s.store, s'.store, id)
    && if InLabelIndex(s.store, id) && Has(s.store.leases[id], Submitted, Some(tx), s.store.leases[id].tokenId)
       then id in s'.store.leases && Has(s'.store.leases[id], Confirmed, Some(tx), Some(s.store.leases[id].labelHash))
       else s'.store == s.store
  }

  lemma ConfirmedEnds(s: State, s': State, t: nat, id: Hash, tx: Hash)
    requires id in s.store.leases && Filed(s.store) && t !in s'.tasks && s'.issued == s.issued
    requires s'.store == MarkConfirmed(s.store, id, tx, s.store.leases[id].labelHash).0
    requires s'.acquisitions == s.acquisitions
    ensures Confirms(s, s', t, id, tx)
  {
    ConfirmedMarks(s.store, id, tx, s.store.leases[id].labelHash);
  }

  // A mark closes the lease that it found, when that is still submitted with its transaction.
  lemma MarkDecides(p: Policy, s: State, s': State, t: nat)
    requires Leads(p, s, Resume(t), s') && s.tasks[t].Marking?
    ensures s.tasks[t].permitId in s.store.leases
    ensures var mark := s.tasks[t];
            var l := s.store.leases[mark.permitId];
            && t !in s'.tasks && s'.issued == s.issued && OnlyMarks(s.store, s'.store, mark.permitId)
            && if mark.found && Has(l, Submitted, Some(mark.txHash), l.tokenId)
               then Has(s'.store.leases[mark.permitId], mark.closing, Some(mark.txHash), l.tokenId)
               else s'.store == s.store
  {
    ReachableStays(p, s);
    assert Grounded(s, s.tasks[t]);
    ClosedMarks(s.store, s.tasks[t].permitId, s.tasks[t].txHash, s.tasks[t].closing);
  }

  // ---- reconciles ----

  lemma ReconcileLooksUp(p: Policy, s: State, s': State, t: nat)
    requires Leads(p, s, Resume(t), s') && s.tasks[t].ReconcileEntered?
    ensures var id, o := s.tasks[t].permitId, s.tasks[t].owner;
            GoesOn(s, s', t, ReconcileLooked(id, o, InLabelIndex(s.store, id)))
  {
    StoreIsFiled(p, s, s.tasks[t].permitId);
    assert Grounded(s, s.tasks[t]);
  }

  lemma ReconcileIsChecked(p: Policy, s: State, s': State, t: nat)
    requires Leads(p, s, Resume(t), s') && s.tasks[t].ReconcileLooked?
    ensures s.tasks[t].permitId in s.store.leases
    ensures var id, o := s.tasks[t].permitId, s.tasks[t].owner;
            if s.tasks[t].found && s.store.leases[id].state == Submitted
            then GoesOn(s, s', t, ReconcileInspecting(id, o)) else JustEnds(s, s', t)
  {
    assert Grounded(s, s.tasks[t]);
    FieldsOf(p, s, s.tasks[t].permitId);
  }

  // An unknown or pending transaction is left alone until its lease has expired, and then needs an expiry proof.
  lemma ReconcileWaits(p: Policy, s: State, s': State, t: nat, i: Inspection)
    requires Leads(p, s, ChainInspected(t, i), s') && s.tasks[t].ReconcileInspecting?
    requires i.Unknown? || i.status == Pending
    ensures s.tasks[t].permitId in s.store.leases
    ensures if s.clock < s.store.leases[s.tasks[t].permitId].expiresAt then JustEnds(s, s', t)
            else GoesOn(s, s', t, ReconcileProving(s.tasks[t].permitId, s.tasks[t].owner))
  {
    assert Grounded(s, s.tasks[t]);
  }

  // Any other answer decides at once.
  lemma ReconcileIsAnswered(p: Policy, s: State, s': State, t: nat, i: Inspection)
    requires Leads(p, s, ChainInspected(t, i), s') && s.tasks[t].ReconcileInspecting? && i.Seen? && i.status != Pending
    ensures s.tasks[t].permitId in s.store.leases && s.store.leases[s.tasks[t].permitId].txHash.Some?
    ensures var id := s.tasks[t].permitId;
            var l := s.store.leases[id];
            if ShowsToken(p, l, i) then Confirms(s, s', t, id, l.txHash.value)
            else GoesOn(s, s', t, Marking(id, s.tasks[t].owner, l.txHash.value,
                                          if ShowsRevert(p, l, i) then Failed else ManualReview,
                                          InLabelIndex(s.store, id)))
  {
    var id := s.tasks[t].permitId;
    assert Grounded(s, s.tasks[t]);
    StoreIsFiled(p, s, id);
    AboutIsMatching(p, s, id, i);
    if ShowsToken(p, s.store.leases[id], i) { ConfirmedEnds(s, s', t, id, s.store.leases[id].txHash.value); }
  }

  lemma AboutIsMatching(p: Policy, s: State, id: Hash, i: Inspection)
    requires Reachable(p, s) && id in s.store.leases
    ensures Matches(s.store.leases[id], i) <==> IsAbout(p, s.store.leases[id], i)
  {
    ReachableStays(p, s);
    MatchingIsAbout(p, s, id, i);
  }

  // An expiry proof from a block at or before the permit's end changes nothing. A later one puts a lease that is
  // still submitted and found to review when the permit was used, and expires it when it was not.
  lemma ProofDecides(p: Policy, s: State, s': State, t: nat, blockTimestamp: int, used: bool)
    requires Leads(p, s, ExpiryProven(t, blockTimestamp, used), s')
    ensures t in s.tasks && s.tasks[t].ReconcileProving? && s.tasks[t].permitId in s.store.leases
    ensures var id, o := s.tasks[t].permitId, s.tasks[t].owner;
            var l := s.store.leases[id];
            if blockTimestamp <= l.permit.validUntil then JustEnds(s, s', t)
            else
              && l.txHash.Some?
              && GoesOn(s, s', t, Marking(id, o, l.txHash.value, if used then ManualReview else Expired,
                                          InLabelIndex(s.store, id)))
  {
    ReachableStays(p, s);
    assert Grounded(s, s.tasks[t]);
    FoundIsIndexed(s.store, s.tasks[t].permitId);
  }

  lemma ExpiryIsMarked(p: Policy, s: State, s1: State, s2: State, t: nat, blockTimestamp: int, used: bool)
    requires Leads(p, s, ExpiryProven(t, blockTimestamp, used), s1) && Leads(p, s1, Resume(t), s2)
    requires s.tasks[t].permitId in s.store.leases && InLabelIndex(s.store, s.tasks[t].permitId)
    requires s.store.leases[s.tasks[t].permitId].state == Submitted
    ensures var id := s.tasks[t].permitId;
            var l := s.store.leases[id];
            && l.permit.validUntil < blockTimestamp && OnlyMarks(s.store, s2.store, id)
            && Has(s2.store.leases[id], if used then ManualReview else Expired, l.txHash, l.tokenId)
  {
    ProofDecides(p, s, s1, t, blockTimestamp, used);
    MarkDecides(p, s1, s2, t);
  }

  // ---- cleanup ----

  // A cleanup touches no call and no lease, and drops from the indexes exactly what has expired by its cutoff, so
  // never a lease that has not expired.
  lemma CleanupDecides(p: Policy, s: State, s': State, cutoff: int)
    requires Leads(p, s, CleanupRuns(cutoff), s')
    ensures Enabled(p, s, CleanupRuns(s.clock)) && cutoff <= s.clock
    ensures s' == s.(store := s'.store) && s'.store.leases == s.store.leases
    ensures forall k <- s.store.byRequest ::
              k !in s'.store.byRequest <==> s.store.leases[s.store.byRequest[k]].expiresAt <= cutoff
    ensures forall l <- s.store.byLabel ::
              l !in s'.store.byLabel <==> s.store.leases[s.store.byLabel[l]].expiresAt <= cutoff
    ensures s'.store.byRequest.Items <= s.store.byRequest.Items && s'.store.byLabel.Items <= s.store.byLabel.Items
  {
    ReachableStays(p, s);
    CleanupDrops(s.store, cutoff);
  }
}

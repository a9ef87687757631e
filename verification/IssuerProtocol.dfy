// The permit issuer as a step system (apps/permit-issuer/src/service.ts).
//
// Every `await` is a point where other calls may run, so a call is a task that moves from one await to
// the next, and a run is any sequence of events that are enabled one after the other. Each store
// method runs in one step. Whatever comes from outside (chain reads, inspections, the signer, the
// clock, fresh random permit ids) is carried by the event.
module IssuerProtocol {
  import opened Options
  import opened Permits
  import opened Leases

  const RESERVATION_TAIL_MS := 30000

  datatype Policy = Policy(ttlSeconds: int, controller: Address)

  // An intent that passed prepareIntent: payer, executor and requester are one address.
  datatype Intent = Intent(requester: Address, requestId: string, labelHash: Hash, fingerprint: Hash)

  datatype Submission = Submission(permitId: Hash, requester: Address, txHash: Hash)

  datatype Status = Pending | Reverted | Invalid | Success

  datatype Inspection =
    | Unknown
    | Seen(status: Status, from: Address, to: Address, permitId: Hash, requester: Address, labelHash: Hash,
           tokenId: Option<nat>)

  datatype Task =
    // issue(): waiting for the lock, checking the live policy, reading the chain with issuanceNow taken,
    // back from acquireLease, back from getSignedPermit, waiting for the signer
    | IssueQueued(intent: Intent)
    | IssueEntered(intent: Intent)
    | IssueReading(intent: Intent, issuanceNow: int)
    | IssueAcquired(intent: Intent, issuanceNow: int, lease: Hash)
    | IssueLooked(intent: Intent, issuanceNow: int, lease: Hash, existing: Option<SignedPermit>)
    | IssueSigning(intent: Intent, issuanceNow: int, lease: Hash)
    // recordSubmission(): waiting for the lock, inside, back from getLease, inspecting, back from markSubmitted
    | SubmitQueued(submission: Submission)
    | SubmitEntered(submission: Submission)
    | SubmitLooked(submission: Submission, found: bool)
    | SubmitInspecting(submission: Submission)
    | SubmitMarked(submission: Submission, inspection: Inspection, marked: bool)
    // the locked section of reconcileSubmittedOnce for one listed lease
    | ReconcileQueued(permitId: Hash, owner: Address)
    | ReconcileEntered(permitId: Hash, owner: Address)
    | ReconcileLooked(permitId: Hash, owner: Address, found: bool)
    | ReconcileInspecting(permitId: Hash, owner: Address)
    | ReconcileProving(permitId: Hash, owner: Address)
    // markFailed, markManualReview or markExpired, called by one of the two: back from its getLease
    | Marking(permitId: Hash, owner: Address, txHash: Hash, closing: LeaseState, found: bool)

  datatype Acquisition = Acquisition(permitId: Hash, at: int)

  // One value returned by issue(), with the issuanceNow of the call and the time at which it returned.
  datatype Issued = Issued(intent: Intent, permit: Permit, signature: Hash, issuanceNow: int, returnedAt: int)

  // One answer to an expiry proof: the block it speaks about, and whether the permit was used by then.
  datatype Expiry = Expiry(permitId: Hash, blockTimestamp: int, usedPermit: bool)

  // The live system, then what an observer has seen: the real time of every acquisition in order, every
  // inspection and expiry proof the chain answered, every permit returned, and whether the "stored submission state is
  // missing its transaction binding" error was ever thrown.
  datatype State = State(
    clock: int,
    store: Store,
    tasks: map<nat, Task>,
    holder: map<Address, nat>,
    acquisitions: seq<Acquisition>,
    inspections: set<(Hash, Inspection)>,
    proofs: set<Expiry>,
    issued: set<Issued>,
    bindingMissing: bool)

  datatype Event =
    | Tick(to: int)
    | CallIssue(task: nat, intent: Intent)
    | CallSubmit(task: nat, submission: Submission)
    | CallReconcile(task: nat, permitId: Hash)
    | Enter(task: nat)
    | Abort(task: nat)
    | PolicyLive(task: nat)
    | ChainRead(task: nat, permitId: Hash, nonce: nat, amount: nat)
    | Resume(task: nat)
    | SignerAnswers(task: nat, signature: Hash)
    | ChainInspected(task: nat, inspection: Inspection)
    | ExpiryProven(task: nat, blockTimestamp: int, usedPermit: bool)
    | CleanupRuns(cutoff: int)

  const INITIAL := State(0, EMPTY_STORE, map[], map[], [], {}, {}, {}, false)

  function Requester(t: Task): Address {
    match t
    case IssueQueued(i) => i.requester
    case IssueEntered(i) => i.requester
    case IssueReading(i, _) => i.requester
    case IssueAcquired(i, _, _) => i.requester
    case IssueLooked(i, _, _, _) => i.requester
    case IssueSigning(i, _, _) => i.requester
    case SubmitQueued(s) => s.requester
    case SubmitEntered(s) => s.requester
    case SubmitLooked(s, _) => s.requester
    case SubmitInspecting(s) => s.requester
    case SubmitMarked(s, _, _) => s.requester
    case ReconcileQueued(_, o) => o
    case ReconcileEntered(_, o) => o
    case ReconcileLooked(_, o, _) => o
    case ReconcileInspecting(_, o) => o
    case ReconcileProving(_, o) => o
    case Marking(_, o, _, _, _) => o
  }

  predicate IsIssue(t: Task) {
    t.IssueQueued? || t.IssueEntered? || t.IssueReading? || t.IssueAcquired? || t.IssueLooked? || t.IssueSigning?
  }

  predicate Queued(t: Task) {
    t.IssueQueued? || t.SubmitQueued? || t.ReconcileQueued?
  }

  predicate Matches(l: LeaseView, i: Inspection) {
    && i.Seen?
    && i.from == l.permit.executor && i.to == l.permit.controller
    && i.permitId == l.permitId && i.requester == l.requester && i.labelHash == l.labelHash
  }

  // The permit and lease that issue() builds from the chain reads.
  function BuildLease(p: Policy, i: Intent, issuanceNow: int, permitId: Hash, nonce: nat, amount: nat): LeaseView {
    var validUntilMs := issuanceNow + p.ttlSeconds * 1000;
    var issuedAt := Seconds(issuanceNow);
    LeaseView(i.labelHash, i.requester, i.requestId, permitId, i.fingerprint, Leased,
              Permit(CHAIN_ID, p.controller, i.labelHash, i.requester, i.requester, amount, nonce, permitId,
                     issuedAt, issuedAt - SKEW_SECONDS, Seconds(validUntilMs)),
              validUntilMs + RESERVATION_TAIL_MS, None, None)
  }

  predicate Enabled(p: Policy, s: State, e: Event) {
    match e
    case Tick(to) => s.clock <= to
    // issue() throws before anything else when the TTL is outside 15..295.
    case CallIssue(t, _) => t !in s.tasks && 15 <= p.ttlSeconds <= 295
    case CallSubmit(t, _) => t !in s.tasks
    // listSubmitted returned this lease; its turn in the loop comes with Enter.
    case CallReconcile(t, id) => t !in s.tasks && Indexed(s.store, id) && s.store.leases[id].state.Submitted?
    case Enter(t) => t in s.tasks && Queued(s.tasks[t]) && Requester(s.tasks[t]) !in s.holder
    // Any awaited dependency may reject; the call throws and the lock is released.
    case Abort(t) => t in s.tasks && !Queued(s.tasks[t])
    case PolicyLive(t) => t in s.tasks && s.tasks[t].IssueEntered?
    case ChainRead(t, id, _, amount) =>
      t in s.tasks && s.tasks[t].IssueReading? && id !in s.store.leases && 0 < amount
    case Resume(t) =>
      && t in s.tasks
      && (s.tasks[t].IssueAcquired? || s.tasks[t].IssueLooked? || s.tasks[t].SubmitEntered? || s.tasks[t].SubmitLooked?
          || s.tasks[t].SubmitMarked? || s.tasks[t].ReconcileEntered? || s.tasks[t].ReconcileLooked?
          || s.tasks[t].Marking?)
    case SignerAnswers(t, _) => t in s.tasks && s.tasks[t].IssueSigning?
    case ChainInspected(t, _) => t in s.tasks && (s.tasks[t].SubmitInspecting? || s.tasks[t].ReconcileInspecting?)
    case ExpiryProven(t, _, _) => t in s.tasks && s.tasks[t].ReconcileProving?
    // The current time less a non-negative retention.
    case CleanupRuns(cutoff) => cutoff <= s.clock
  }

  // A step of a call inside the lock ends the call and frees the lock, or moves it on inside the lock; it
  // takes no time.
  ghost predicate MovesTask(s: State, s': State, t: nat)
    requires t in s.tasks
  {
    && s'.clock == s.clock
    && (|| (s'.tasks == s.tasks - {t} && s'.holder == s.holder - {Requester(s.tasks[t])})
        || (t in s'.tasks && s'.tasks == s.tasks[t := s'.tasks[t]] && s'.holder == s.holder
            && !Queued(s'.tasks[t]) && Requester(s'.tasks[t]) == Requester(s.tasks[t])
            && IsIssue(s'.tasks[t]) == IsIssue(s.tasks[t])))
  }

  ghost predicate NoNewLease(s: State, s': State) {
    s'.acquisitions == s.acquisitions && s'.store.leases.Keys == s.store.leases.Keys
  }

  ghost predicate HearsNothing(s: State, s': State) {
    s'.inspections == s.inspections && s'.proofs == s.proofs
  }

  // What is returned carries the issuanceNow of its call and the current time.
  ghost predicate ReturnsNow(s: State, s': State, t: nat)
    requires t in s.tasks && (s.tasks[t].IssueAcquired? || s.tasks[t].IssueLooked? || s.tasks[t].IssueSigning?)
  {
    s'.clock == s.clock
    && forall r <- s'.issued :: r in s.issued || (r.issuanceNow == s.tasks[t].issuanceNow && r.returnedAt == s.clock)
  }

  // The call returns or throws: it ends and its requester lock is released.
  function Finish(s: State, t: nat): State
    requires t in s.tasks
  {
    s.(tasks := s.tasks - {t}, holder := s.holder - {Requester(s.tasks[t])})
  }

  function Advance(s: State, t: nat, task: Task): State {
    s.(tasks := s.tasks[t := task])
  }

  // A mark looks its lease up and waits.
  function LookUp(s: State, t: nat, id: Hash, owner: Address, tx: Hash, closing: LeaseState): State {
    Advance(s, t, Marking(id, owner, tx, closing, Indexed(s.store, id)))
  }

  function Inside(t: Task): Task
    requires Queued(t)
  {
    match t
    case IssueQueued(i) => IssueEntered(i)
    case SubmitQueued(sub) => SubmitEntered(sub)
    case ReconcileQueued(id, o) => ReconcileEntered(id, o)
  }

  ghost function AfterChainRead(p: Policy, s: State, t: nat, id: Hash, nonce: nat, amount: nat): (r: State)
    requires Coherent(s.store) && t in s.tasks && s.tasks[t].IssueReading?
    ensures MovesTask(s, r, t) && r.bindingMissing == s.bindingMissing && r.issued == s.issued
    ensures HearsNothing(s, r)
    ensures t in r.tasks ==> r.tasks[t].IssueAcquired? && r.tasks[t].issuanceNow == s.tasks[t].issuanceNow
  {
    var task := s.tasks[t];
    var candidate := BuildLease(p, task.intent, task.issuanceNow, id, nonce, amount);
    var (store, result) := AcquireLease(s.store, candidate, task.issuanceNow);
    match result
    case Acquired(got) =>
      Advance(s.(store := store, acquisitions := s.acquisitions + [Acquisition(got, s.clock)]), t,
              IssueAcquired(task.intent, task.issuanceNow, got))
    case Idempotent(got) => Advance(s.(store := store), t, IssueAcquired(task.intent, task.issuanceNow, got))
    case Conflict(_) => Finish(s, t)
    case IdempotencyConflict => Finish(s, t)
  }

  function AfterIssueResume(s: State, t: nat): (r: State)
    requires t in s.tasks && (s.tasks[t].IssueAcquired? || s.tasks[t].IssueLooked?)
    requires s.tasks[t].lease in s.store.leases
    ensures MovesTask(s, r, t) && r.bindingMissing == s.bindingMissing && NoNewLease(s, r)
    ensures HearsNothing(s, r)
    ensures t in r.tasks ==>
              (r.tasks[t].IssueLooked? || r.tasks[t].IssueSigning?) && r.tasks[t].issuanceNow == s.tasks[t].issuanceNow
    ensures ReturnsNow(s, r, t)
  {
    match s.tasks[t]
    case IssueAcquired(i, now, id) =>
      var l := s.store.leases[id];
      if l.permit.validUntil < Seconds(now) || l.expiresAt <= now then Finish(s, t)
      else Advance(s, t, IssueLooked(i, now, id, GetSignedPermit(s.store, id)))
    case IssueLooked(i, now, id, existing) =>
      if existing.Some? then
        Finish(s.(issued := s.issued + {Issued(i, existing.value.permit, existing.value.signature, now, s.clock)}), t)
      else if !s.store.leases[id].state.Leased? then Finish(s, t)
      else Advance(s, t, IssueSigning(i, now, id))
  }

  function AfterSigning(s: State, t: nat, signature: Hash): (r: State)
    requires t in s.tasks && s.tasks[t].IssueSigning? && s.tasks[t].lease in s.store.leases
    ensures MovesTask(s, r, t) && r.bindingMissing == s.bindingMissing && NoNewLease(s, r)
    ensures HearsNothing(s, r)
    ensures t !in r.tasks && ReturnsNow(s, r, t)
  {
    var task := s.tasks[t];
    var permit := s.store.leases[task.lease].permit;
    var (store, saved) := SaveSignedPermit(s.store, task.lease, permit, signature);
    if !saved then Finish(s, t)
    else
      var returned := Issued(task.intent, permit, signature, task.issuanceNow, s.clock);
      Finish(s.(store := store, issued := s.issued + {returned}), t)
  }

  function AfterSubmitResume(s: State, t: nat): (r: State)
    requires t in s.tasks && (s.tasks[t].SubmitEntered? || s.tasks[t].SubmitLooked? || s.tasks[t].SubmitMarked?)
    requires s.tasks[t].SubmitLooked? && s.tasks[t].found ==> s.tasks[t].submission.permitId in s.store.leases
    requires s.tasks[t].SubmitMarked? ==> s.tasks[t].inspection.Seen?
                                          && s.tasks[t].submission.permitId in s.store.leases
    ensures MovesTask(s, r, t) && r.bindingMissing == s.bindingMissing && NoNewLease(s, r) && r.issued == s.issued
    ensures HearsNothing(s, r)
  {
    match s.tasks[t]
    case SubmitEntered(sub) => Advance(s, t, SubmitLooked(sub, Indexed(s.store, sub.permitId)))
    case SubmitLooked(sub, found) =>
      if !found || s.store.leases[sub.permitId].requester != sub.requester then Finish(s, t)
      else
        var l := s.store.leases[sub.permitId];
        if l.txHash.Some? && l.txHash.value != sub.txHash then Finish(s, t)
        else if l.txHash.Some? && (l.state.Submitted? || l.state.Failed? || l.state.ManualReview?) then Finish(s, t)
        else if l.txHash.Some? && l.state.Confirmed? && l.tokenId.Some? then Finish(s, t)
        else Advance(s, t, SubmitInspecting(sub))
    case SubmitMarked(sub, i, marked) =>
      if !marked || i.status.Pending? then Finish(s, t)
      else if i.status.Reverted? then LookUp(s, t, sub.permitId, sub.requester, sub.txHash, Failed)
      else if i.status.Invalid? || i.tokenId != Some(s.store.leases[sub.permitId].labelHash) then
        LookUp(s, t, sub.permitId, sub.requester, sub.txHash, ManualReview)
      else Finish(s.(store := MarkConfirmed(s.store, sub.permitId, sub.txHash, i.tokenId.value).0), t)
  }

  function AfterSubmitInspected(s: State, t: nat, i: Inspection): (r: State)
    requires t in s.tasks && s.tasks[t].SubmitInspecting? && s.tasks[t].submission.permitId in s.store.leases
    ensures MovesTask(s, r, t) && NoNewLease(s, r) && r.issued == s.issued
    ensures r.proofs == s.proofs && r.inspections == s.inspections + {(s.tasks[t].submission.txHash, i)}
  {
    var sub := s.tasks[t].submission;
    var l := s.store.leases[sub.permitId];
    var s1 := s.(inspections := s.inspections + {(sub.txHash, i)});
    if i.Unknown? || !Matches(l, i) then Finish(s1, t)
    else if l.state.Confirmed? || l.state.Failed? || l.state.ManualReview? then Finish(s1.(bindingMissing := true), t)
    else if !l.state.Leased? && !l.state.Submitted? then Finish(s1, t)
    else
      var (store, marked) := MarkSubmitted(s.store, sub.permitId, sub.txHash);
      Advance(s1.(store := store), t, SubmitMarked(sub, i, marked))
  }

  function AfterReconcileResume(s: State, t: nat): (r: State)
    requires t in s.tasks && (s.tasks[t].ReconcileEntered? || s.tasks[t].ReconcileLooked?)
    requires s.tasks[t].permitId in s.store.leases
    ensures MovesTask(s, r, t) && r.bindingMissing == s.bindingMissing && NoNewLease(s, r) && r.issued == s.issued
    ensures HearsNothing(s, r)
  {
    match s.tasks[t]
    case ReconcileEntered(id, o) => Advance(s, t, ReconcileLooked(id, o, Indexed(s.store, id)))
    case ReconcileLooked(id, o, found) =>
      if !found || !s.store.leases[id].state.Submitted? || s.store.leases[id].txHash.None? then Finish(s, t)
      else Advance(s, t, ReconcileInspecting(id, o))
  }

  function AfterReconcileInspected(s: State, t: nat, i: Inspection): (r: State)
    requires t in s.tasks && s.tasks[t].ReconcileInspecting?
    requires s.tasks[t].permitId in s.store.leases && s.store.leases[s.tasks[t].permitId].txHash.Some?
    ensures MovesTask(s, r, t) && r.bindingMissing == s.bindingMissing && NoNewLease(s, r) && r.issued == s.issued
    ensures r.proofs == s.proofs
    ensures r.inspections == s.inspections + {(s.store.leases[s.tasks[t].permitId].txHash.value, i)}
  {
    var id := s.tasks[t].permitId;
    var l := s.store.leases[id];
    var tx := l.txHash.value;
    var s1 := s.(inspections := s.inspections + {(tx, i)});
    if i.Unknown? || i.status.Pending? then
      if s.clock < l.expiresAt then Finish(s1, t) else Advance(s1, t, ReconcileProving(id, s.tasks[t].owner))
    else if !Matches(l, i) then LookUp(s1, t, id, s.tasks[t].owner, tx, ManualReview)
    else if i.status.Reverted? then LookUp(s1, t, id, s.tasks[t].owner, tx, Failed)
    else if i.status.Success? && i.tokenId == Some(l.labelHash) then
      Finish(s1.(store := MarkConfirmed(s.store, id, tx, l.labelHash).0), t)
    else LookUp(s1, t, id, s.tasks[t].owner, tx, ManualReview)
  }

  function AfterProof(s: State, t: nat, blockTimestamp: int, used: bool): (r: State)
    requires t in s.tasks && s.tasks[t].ReconcileProving?
    requires s.tasks[t].permitId in s.store.leases && s.store.leases[s.tasks[t].permitId].txHash.Some?
    ensures MovesTask(s, r, t) && r.bindingMissing == s.bindingMissing && NoNewLease(s, r) && r.issued == s.issued
    ensures r.inspections == s.inspections
    ensures r.proofs == s.proofs + {Expiry(s.tasks[t].permitId, blockTimestamp, used)}
  {
    var id := s.tasks[t].permitId;
    var l := s.store.leases[id];
    var s1 := s.(proofs := s.proofs + {Expiry(id, blockTimestamp, used)});
    if blockTimestamp <= l.permit.validUntil then Finish(s1, t)
    else LookUp(s1, t, id, s.tasks[t].owner, l.txHash.value, if used then ManualReview else Expired)
  }

  function AfterMarking(s: State, t: nat): (r: State)
    requires t in s.tasks && s.tasks[t].Marking? && s.tasks[t].permitId in s.store.leases
    ensures MovesTask(s, r, t) && r.bindingMissing == s.bindingMissing && NoNewLease(s, r) && r.issued == s.issued
    ensures HearsNothing(s, r)
  {
    var mark := s.tasks[t];
    if !mark.found then Finish(s, t)
    else Finish(s.(store := MarkClosed(s.store, mark.permitId, mark.txHash, mark.closing).0), t)
  }

  // What a task relies on at its await: the ids it carries are leases, and the answers it carries are answers.
  ghost predicate Grounded(s: State, t: Task) {
    match t
    case IssueAcquired(_, _, id) => id in s.store.leases
    case IssueLooked(_, _, id, _) => id in s.store.leases
    case IssueSigning(_, _, id) => id in s.store.leases
    case SubmitLooked(sub, found) => found ==> sub.permitId in s.store.leases
    case SubmitInspecting(sub) => sub.permitId in s.store.leases
    case SubmitMarked(sub, i, _) => sub.permitId in s.store.leases && i.Seen?
    case ReconcileQueued(id, _) => id in s.store.leases
    case ReconcileEntered(id, _) => id in s.store.leases
    case ReconcileLooked(id, _, _) => id in s.store.leases
    case ReconcileInspecting(id, _) => id in s.store.leases && s.store.leases[id].txHash.Some?
    case ReconcileProving(id, _) => id in s.store.leases && s.store.leases[id].txHash.Some?
    case Marking(id, _, _, _, _) => id in s.store.leases
    case _ => true
  }

  ghost predicate WellFormed(s: State) {
    Coherent(s.store) && forall t <- s.tasks :: Grounded(s, s.tasks[t])
  }

  ghost function AfterCleanup(s: State, cutoff: int): State
    requires Coherent(s.store)
  {
    s.(store := Cleanup(s.store, cutoff))
  }

  ghost function Step(p: Policy, s: State, e: Event): State
    requires WellFormed(s) && Enabled(p, s, e)
  {
    match e
    case Tick(to) => s.(clock := to)
    case CallIssue(t, i) => Advance(s, t, IssueQueued(i))
    case CallSubmit(t, sub) => Advance(s, t, SubmitQueued(sub))
    case CallReconcile(t, id) => Advance(s, t, ReconcileQueued(id, s.store.leases[id].requester))
    case Enter(t) => Advance(s.(holder := s.holder[Requester(s.tasks[t]) := t]), t, Inside(s.tasks[t]))
    case Abort(t) => Finish(s, t)
    case PolicyLive(t) => Advance(s, t, IssueReading(s.tasks[t].intent, s.clock))
    case ChainRead(t, id, nonce, amount) => AfterChainRead(p, s, t, id, nonce, amount)
    case Resume(t) =>
      var task := s.tasks[t];
      assert Grounded(s, task);
      if task.IssueAcquired? || task.IssueLooked? then AfterIssueResume(s, t)
      else if task.ReconcileEntered? || task.ReconcileLooked? then AfterReconcileResume(s, t)
      else if task.Marking? then AfterMarking(s, t)
      else AfterSubmitResume(s, t)
    case SignerAnswers(t, signature) =>
      assert Grounded(s, s.tasks[t]);
      AfterSigning(s, t, signature)
    case ChainInspected(t, i) =>
      assert Grounded(s, s.tasks[t]);
      if s.tasks[t].SubmitInspecting? then AfterSubmitInspected(s, t, i) else AfterReconcileInspected(s, t, i)
    case ExpiryProven(t, ts, used) =>
      assert Grounded(s, s.tasks[t]);
      AfterProof(s, t, ts, used)
    case CleanupRuns(cutoff) => AfterCleanup(s, cutoff)
  }
}

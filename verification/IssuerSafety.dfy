// What every run of the permit issuer keeps.
module IssuerSafety {
  import opened Options
  import opened Permits
  import opened Leases
  import opened IssuerProtocol

  // ---- the invariant, part by part ----

  ghost predicate LockHeld(s: State) {
    && (forall r <- s.holder :: s.holder[r] in s.tasks && !Queued(s.tasks[s.holder[r]])
                                && Requester(s.tasks[s.holder[r]]) == r)
    && (forall t <- s.tasks :: !Queued(s.tasks[t]) ==>
          Requester(s.tasks[t]) in s.holder && s.holder[Requester(s.tasks[t])] == t)
  }

  // issuanceNow of the call that built the lease.
  function IssuedMs(p: Policy, l: LeaseView): int {
    l.expiresAt - RESERVATION_TAIL_MS - p.ttlSeconds * 1000
  }

  ghost predicate BuiltByIssue(p: Policy, l: LeaseView) {
    && 15 <= p.ttlSeconds <= 295
    && SameIdentity(BuildLease(p, Intent(l.requester, l.requestId, l.labelHash, l.fingerprint), IssuedMs(p, l),
                               l.permitId, l.permit.nonce, l.permit.amount), l)
  }

  ghost predicate LeasesTimely(p: Policy, s: State) {
    forall id <- s.store.leases :: BuiltByIssue(p, s.store.leases[id]) && IssuedMs(p, s.store.leases[id]) <= s.clock
  }

  ghost predicate TermsHold(p: Policy, s: State) {
    && LeasesTimely(p, s)
    && (forall t <- s.tasks :: IsIssue(s.tasks[t]) ==> 15 <= p.ttlSeconds <= 295)
  }

  // A lease is confirmed, or its reservation is over, or it still keeps others out through the label index.
  ghost predicate StillExclusive(s: State, id: Hash)
    requires id in s.store.leases
  {
    var l := s.store.leases[id];
    l.state.Confirmed? || l.expiresAt <= s.clock || (Indexed(s.store, id) && Exclusive(l.state))
  }

  ghost predicate NothingLost(s: State) {
    forall id <- s.store.leases :: StillExclusive(s, id)
  }

  ghost predicate ProvenBy(s: State, l: LeaseView, i: Inspection) {
    l.txHash.Some? && (l.txHash.value, i) in s.inspections && Matches(l, i) && i.status.Success?
    && i.tokenId == Some(l.labelHash)
  }

  // The submission of the bound transaction was seen to match the lease.
  ghost predicate SeenBy(s: State, l: LeaseView, i: Inspection) {
    l.txHash.Some? && (l.txHash.value, i) in s.inspections && Matches(l, i)
  }

  ghost predicate RevertedBy(s: State, l: LeaseView, i: Inspection) {
    l.txHash.Some? && (l.txHash.value, i) in s.inspections && Matches(l, i) && i.status.Reverted?
  }

  // The chain answered for the transaction, and neither by a matching success with the token of the label nor
  // by a matching revert.
  ghost predicate RefutedBy(s: State, l: LeaseView, tx: Hash, i: Inspection) {
    && (tx, i) in s.inspections && i.Seen? && !i.status.Pending?
    && !(Matches(l, i) && i.status.Success? && i.tokenId == Some(l.labelHash)) && !(Matches(l, i) && i.status.Reverted?)
  }

  // A block after the permit's end showed whether it had been used.
  ghost predicate EndedBy(s: State, l: LeaseView, used: bool) {
    exists proof <- s.proofs ::
      proof.permitId == l.permitId && l.permit.validUntil < proof.blockTimestamp && proof.usedPermit == used
  }

  ghost predicate ReviewedBy(s: State, l: LeaseView, tx: Hash) {
    EndedBy(s, l, true) || exists i :: RefutedBy(s, l, tx, i)
  }

  // Fields that go with each state.
  ghost predicate Bound(s: State, l: LeaseView) {
    && !l.state.Released?
    && (l.state.Leased? ==> l.txHash.None?)
    && (l.state.Submitted? || l.state.Failed? || l.state.ManualReview? ==> l.txHash.Some?)
    && (l.tokenId.Some? <==> l.state.Confirmed?)
    && (l.txHash.Some? ==> exists i :: SeenBy(s, l, i))
    && (l.state.Confirmed? ==> l.tokenId == Some(l.labelHash) && exists i :: ProvenBy(s, l, i))
    && (l.state.Failed? ==> exists i :: RevertedBy(s, l, i))
    && (l.state.ManualReview? ==> ReviewedBy(s, l, l.txHash.value))
    && (l.state.Expired? && l.txHash.Some? ==> EndedBy(s, l, false) || exists i :: RevertedBy(s, l, i))
  }

  ghost predicate AllBound(s: State) {
    forall id <- s.store.leases :: Bound(s, s.store.leases[id])
  }

  ghost predicate Ours(s: State, id: Hash, requester: Address) {
    id in s.store.leases && s.store.leases[id].requester == requester
  }

  // What was checked before a mark.
  ghost predicate MayClose(s: State, id: Hash, tx: Hash, closing: LeaseState)
    requires id in s.store.leases
  {
    var l := s.store.leases[id];
    match closing
    case Failed => exists i :: (tx, i) in s.inspections && Matches(l, i) && i.status.Reverted?
    case ManualReview => ReviewedBy(s, l, tx)
    case Expired => l.expiresAt <= s.clock && EndedBy(s, l, false)
    case _ => false
  }

  predicate MarksFound(t: Task, id: Hash) {
    t.Marking? && t.permitId == id && t.found
  }

  // A mark that is under way has found this lease.
  ghost predicate LookedUp(s: State, id: Hash) {
    exists t <- s.tasks :: MarksFound(s.tasks[t], id)
  }

  ghost predicate TaskHolds(p: Policy, s: State, t: Task) {
    match t
    case IssueReading(i, now) =>
      now <= s.clock
      && forall id <- s.store.leases :: s.store.leases[id].requester == i.requester ==>
                                        IssuedMs(p, s.store.leases[id]) <= now
    case IssueAcquired(i, now, id) =>
      id in s.store.leases && Key(s.store.leases[id]) == (i.requester, i.requestId)
          && s.store.leases[id].fingerprint == i.fingerprint && IssuedMs(p, s.store.leases[id]) <= now
    case IssueLooked(i, now, id, existing) =>
      && id in s.store.leases && Key(s.store.leases[id]) == (i.requester, i.requestId)
      && s.store.leases[id].fingerprint == i.fingerprint
      && MeetsWindow(s.store.leases[id].permit, Seconds(now))
      && (existing.Some? ==> existing.value.permit == s.store.leases[id].permit
                             && (Retained(s.store, id) ==> id in s.store.signed
                                                           && s.store.signed[id] == existing.value))
    case IssueSigning(i, now, id) =>
      id in s.store.leases && Key(s.store.leases[id]) == (i.requester, i.requestId)
      && s.store.leases[id].fingerprint == i.fingerprint
      && MeetsWindow(s.store.leases[id].permit, Seconds(now))
    case SubmitLooked(sub, found) => found ==> sub.permitId in s.store.leases
    case SubmitInspecting(sub) =>
      Ours(s, sub.permitId, sub.requester)
      && (s.store.leases[sub.permitId].state.Leased? || s.store.leases[sub.permitId].state.Expired?)
    case SubmitMarked(sub, i, marked) =>
      Ours(s, sub.permitId, sub.requester) && Matches(s.store.leases[sub.permitId], i)
          && (sub.txHash, i) in s.inspections
    case ReconcileQueued(id, o) => Ours(s, id, o)
    case ReconcileEntered(id, o) => Ours(s, id, o)
    case ReconcileLooked(id, o, _) => Ours(s, id, o)
    case ReconcileInspecting(id, o) => Ours(s, id, o) && s.store.leases[id].txHash.Some?
    case ReconcileProving(id, o) =>
      Ours(s, id, o) && s.store.leases[id].txHash.Some? && s.store.leases[id].expiresAt <= s.clock
    case Marking(id, o, tx, closing, _) => Ours(s, id, o) && MayClose(s, id, tx, closing)
    case _ => true
  }

  ghost predicate TasksHold(p: Policy, s: State) {
    forall t <- s.tasks :: TaskHolds(p, s, s.tasks[t])
  }

  ghost predicate SignaturesHold(s: State) {
    forall id <- s.store.signed :: id in s.store.leases && s.store.signed[id].permit == s.store.leases[id].permit
  }

  // What issue() returned is a stored permit in its window, and while the request is retained the
  // stored signature is the returned one.
  ghost predicate IssuedIsStored(s: State, r: Issued) {
    var id := r.permit.permitId;
    && id in s.store.leases && s.store.leases[id].permit == r.permit
    && Key(s.store.leases[id]) == (r.intent.requester, r.intent.requestId)
    && s.store.leases[id].fingerprint == r.intent.fingerprint
    && MeetsWindow(r.permit, Seconds(r.issuanceNow))
    && (Retained(s.store, id) ==> id in s.store.signed && s.store.signed[id] == SignedPermit(r.permit, r.signature))
  }

  ghost predicate IssuedHolds(s: State) {
    forall r <- s.issued :: IssuedIsStored(s, r)
  }

  // A call took its issuanceNow before it went on, and returned no earlier.
  predicate StartedBy(t: Task, time: int) {
    t.IssueReading? || t.IssueAcquired? || t.IssueLooked? || t.IssueSigning? ==> t.issuanceNow <= time
  }

  ghost predicate TimesHold(s: State) {
    && (forall t <- s.tasks :: StartedBy(s.tasks[t], s.clock))
    && (forall r <- s.issued :: r.issuanceNow <= r.returnedAt <= s.clock)
  }

  // A lease whose request is retained was displaced from the label index only when it excluded nobody.
  ghost predicate DisplacedAreDone(s: State) {
    forall id <- s.store.leases :: Retained(s.store, id) && !Indexed(s.store, id) ==>
                                   !Exclusive(s.store.leases[id].state)
  }

  predicate Competes(a: LeaseView, b: LeaseView) {
    a.labelHash == b.labelHash || a.requester == b.requester
  }

  ghost predicate AcquisitionHolds(p: Policy, s: State, q: Acquisition) {
    q.permitId in s.store.leases && q.at <= s.clock && IssuedMs(p, s.store.leases[q.permitId]) <= q.at
  }

  ghost predicate AcquisitionsHold(p: Policy, s: State) {
    && (forall k | 0 <= k < |s.acquisitions| :: AcquisitionHolds(p, s, s.acquisitions[k]))
    && (forall id <- s.store.leases :: exists k :: 0 <= k < |s.acquisitions| && s.acquisitions[k].permitId == id)
  }

  // Of two leases in acquisition order: the earlier was out of the way when the later one was acquired.
  ghost predicate PairApart(s: State, a: Hash, b: Hash, at: int) {
    a in s.store.leases && b in s.store.leases ==>
      a != b
      && (Competes(s.store.leases[a], s.store.leases[b]) ==>
            s.store.leases[a].state.Confirmed? || s.store.leases[a].expiresAt <= at)
  }

  // No two live reservations compete, for any two leases of one label or one requester.
  ghost predicate NoneCompete(s: State) {
    forall j, k | 0 <= j < k < |s.acquisitions| ::
      PairApart(s, s.acquisitions[j].permitId, s.acquisitions[k].permitId, s.acquisitions[k].at)
  }

  ghost predicate Inv(p: Policy, s: State) {
    && WellFormed(s) && LockHeld(s) && TermsHold(p, s) && NothingLost(s) && AllBound(s) && TasksHold(p, s)
    && SignaturesHold(s) && IssuedHolds(s) && AcquisitionsHold(p, s) && NoneCompete(s) && TimesHold(s)
       && DisplacedAreDone(s)
    && !s.bindingMissing
  }

  // ---- how one step may change a lease ----

  predicate Lifecycle(clock: int, a: LeaseView, b: LeaseView) {
    a == b
    || (SameIdentity(a, b)
        && ((a.state.Leased? && b.state.Submitted? && a.txHash.None? && b.txHash.Some? && b.tokenId == a.tokenId)
            || (b.txHash == a.txHash && a.state.Submitted? && b.state.Confirmed? && b.tokenId == Some(a.labelHash))
            || (b.txHash == a.txHash && b.tokenId == a.tokenId
                && ((a.state.Submitted? && (b.state.Failed? || b.state.ManualReview?))
                    || ((a.state.Submitted? || a.state.Leased? || a.state.Failed?) && b.state.Expired?
                        && a.expiresAt <= clock)))))
  }

  // What a step by a call of requester `actor` does to a lease that exists: it moves along its lifecycle;
  // out of the label index it stays out, and is frozen but for a mark under way that has found it; only its own
  // requester's calls move it, except for displacement to expired; it leaves the label index only when it no
  // longer keeps anyone out; and it is confirmed only on proof, and failed only on a revert.
  ghost predicate LeaseMoves(actor: Address, s: State, s': State, id: Hash)
    requires id in s.store.leases
  {
    && id in s'.store.leases
    && var a, b := s.store.leases[id], s'.store.leases[id];
    && Lifecycle(s.clock, a, b)
    && (!Indexed(s.store, id) ==> !Indexed(s'.store, id) && (b == a || (a.state.Submitted? && LookedUp(s, id))))
    && (b != a ==> a.requester == actor || b.state.Expired?)
    && (Indexed(s.store, id) && !Indexed(s'.store, id) ==>
          && (a.expiresAt <= s.clock || !Exclusive(a.state))
          && (Retained(s'.store, id) ==> !Exclusive(b.state)))
    && (b.txHash != a.txHash ==> exists i :: SeenBy(s', b, i))
    && (b.state.Confirmed? && !a.state.Confirmed? ==> exists i :: ProvenBy(s', b, i))
    && (b.state.Failed? && !a.state.Failed? ==> exists i :: RevertedBy(s', b, i))
    && (b.state.ManualReview? && !a.state.ManualReview? ==> b.txHash.Some? && ReviewedBy(s', b, b.txHash.value))
    && (b.state.Expired? && a.state.Submitted? ==> EndedBy(s', b, false))
    && (!Retained(s.store, id) ==> !Retained(s'.store, id))
  }

  ghost predicate NewLease(p: Policy, actor: Address, s: State, s': State, id: Hash)
    requires id in s'.store.leases
  {
    var l := s'.store.leases[id];
    l.state.Leased? && l.txHash.None? && l.tokenId.None? && BuiltByIssue(p, l) && IssuedMs(p, l) <= s.clock
    && l.requester == actor && Indexed(s'.store, id)
  }

  ghost predicate SignatureMoves(s: State, s': State, id: Hash) {
    && (id in s'.store.signed ==>
          || (id in s.store.signed && s'.store.signed[id] == s.store.signed[id])
          || (id in s.store.leases && s'.store.signed[id].permit == s.store.leases[id].permit
              && (id in s.store.signed ==> s.store.signed[id].signature == s'.store.signed[id].signature)))
    && (id in s.store.signed && id !in s'.store.signed ==> !Retained(s'.store, id))
  }

  ghost predicate Delta(p: Policy, actor: Address, s: State, s': State) {
    && s.clock <= s'.clock && s.inspections <= s'.inspections && s.proofs <= s'.proofs
    && (forall id <- s.store.leases :: LeaseMoves(actor, s, s', id))
    && (forall id <- s'.store.leases :: id !in s.store.leases ==> NewLease(p, actor, s, s', id))
    && (forall id :: SignatureMoves(s, s', id))
  }

  // The one store method a step runs, if any, with what the step checked before running it.
  datatype Effect =
    | NoCall
    | Acquire(candidate: LeaseView, now: int)
    | Save(permitId: Hash, signature: Hash)
    | Submit(permitId: Hash, txHash: Hash)
    | Confirm(permitId: Hash, txHash: Hash)
    | Close(permitId: Hash, txHash: Hash, closing: LeaseState)
    | Sweep(cutoff: int)

  ghost predicate Sound(p: Policy, actor: Address, s: State, s': State, f: Effect) {
    match f
    case NoCall => true
    case Acquire(c, now) => 
      && c.permitId !in s.store.leases && now <= s.clock && c.requester == actor
      && c.state.Leased? && c.txHash.None? && c.tokenId.None? && BuiltByIssue(p, c) && IssuedMs(p, c) == now
    case Save(id, signature) => id in s.store.leases
    case Submit(id, tx) =>
      && Ours(s, id, actor) && (s.store.leases[id].state.Leased? ==> s.store.leases[id].txHash.None?)
      && exists i :: (tx, i) in s'.inspections && Matches(s.store.leases[id], i)
    case Confirm(id, tx) =>
      Ours(s, id, actor)
      && exists i :: (tx, i) in s'.inspections && Matches(s.store.leases[id], i) && i.status.Success?
                     && i.tokenId == Some(s.store.leases[id].labelHash)
    case Close(id, tx, closing) =>
      Ours(s, id, actor) && MayClose(s, id, tx, closing) && (Indexed(s.store, id) || LookedUp(s, id))
    case Sweep(cutoff) => cutoff <= s.clock
  }

  ghost function Apply(s: Store, f: Effect): Store
    requires Coherent(s)
    requires f.Save? || f.Confirm? || f.Close? ==> f.permitId in s.leases
  {
    match f
    case NoCall => s
    case Acquire(c, now) => AcquireLease(s, c, now).0
    case Save(id, signature) => SaveSignedPermit(s, id, s.leases[id].permit, signature).0
    case Submit(id, tx) => MarkSubmitted(s, id, tx).0
    case Confirm(id, tx) => MarkConfirmed(s, id, tx, s.leases[id].labelHash).0
    case Close(id, tx, closing) => MarkClosed(s, id, tx, closing).0
    case Sweep(cutoff) => SweepRequests(s, cutoff)
  }

  ghost predicate Explains(p: Policy, actor: Address, s: State, s': State, f: Effect)
    requires Coherent(s.store)
  {
    && Sound(p, actor, s, s', f) && s'.store == Apply(s.store, f)
    && s.inspections <= s'.inspections && s.proofs <= s'.proofs && s.clock <= s'.clock
  }

  // ---- what was seen stays seen ----

  ghost predicate SeesMore(s: State, s': State) {
    s.inspections <= s'.inspections && s.proofs <= s'.proofs
  }

  lemma SeenStays(s: State, s': State, a: LeaseView, b: LeaseView)
    requires SeesMore(s, s') && SameIdentity(a, b) && a.txHash == b.txHash
    requires a.txHash.Some? ==> exists i :: SeenBy(s, a, i)
    ensures b.txHash.Some? ==> exists i :: SeenBy(s', b, i)
  {
    if a.txHash.Some? {
      var i :| SeenBy(s, a, i);
      assert SeenBy(s', b, i);
    }
  }

  lemma RevertStays(s: State, s': State, a: LeaseView, b: LeaseView, i: Inspection)
    requires SeesMore(s, s') && SameIdentity(a, b) && a.txHash == b.txHash && RevertedBy(s, a, i)
    ensures RevertedBy(s', b, i)
  {
  }

  lemma EndStays(s: State, s': State, a: LeaseView, b: LeaseView, used: bool)
    requires SeesMore(s, s') && SameIdentity(a, b) && EndedBy(s, a, used)
    ensures EndedBy(s', b, used)
  {
  }

  lemma ReviewStays(s: State, s': State, a: LeaseView, b: LeaseView, tx: Hash)
    requires SeesMore(s, s') && SameIdentity(a, b) && ReviewedBy(s, a, tx)
    ensures ReviewedBy(s', b, tx)
  {
    if EndedBy(s, a, true) {
      EndStays(s, s', a, b, true);
    } else {
      var i :| RefutedBy(s, a, tx, i);
      assert RefutedBy(s', b, tx, i);
    }
  }

  lemma MayCloseStays(s: State, s': State, id: Hash, tx: Hash, closing: LeaseState)
    requires id in s.store.leases && id in s'.store.leases && SameIdentity(s.store.leases[id], s'.store.leases[id])
    requires SeesMore(s, s') && s.clock <= s'.clock && MayClose(s, id, tx, closing)
    ensures MayClose(s', id, tx, closing)
  {
    var a, b := s.store.leases[id], s'.store.leases[id];
    match closing
    case Failed =>
      var i :| (tx, i) in s.inspections && Matches(a, i) && i.status.Reverted?;
      assert (tx, i) in s'.inspections && Matches(b, i);
    case ManualReview => ReviewStays(s, s', a, b, tx);
    case Expired => EndStays(s, s', a, b, false);
    case _ =>
  }

  // ---- what the store methods do ----

  lemma DisplacedMoves(actor: Address, s: State, s': State, c: LeaseView, now: int, id: Hash)
    requires id in s.store.leases && Displaced(s.store, s'.store, c, now, id) && now <= s.clock
    ensures LeaseMoves(actor, s, s', id)
  {
  }

  lemma AcquireDelta(p: Policy, actor: Address, s: State, s': State, c: LeaseView, now: int)
    requires Coherent(s.store) && Explains(p, actor, s, s', Acquire(c, now))
    ensures Delta(p, actor, s, s')
  {
    AcquireDisplaces(s.store, c, now);
    if AcquireLease(s.store, c, now).1.Acquired? {
      forall id <- s.store.leases ensures LeaseMoves(actor, s, s', id) { DisplacedMoves(actor, s, s', c, now, id); }
    }
  }

  lemma SweepDelta(p: Policy, actor: Address, s: State, s': State, cutoff: int)
    requires Coherent(s.store) && Explains(p, actor, s, s', Sweep(cutoff))
    ensures Delta(p, actor, s, s')
  {
    forall id <- s.store.leases ensures LeaseMoves(actor, s, s', id) { }
  }

  lemma ConfirmDelta(p: Policy, actor: Address, s: State, s': State, f: Effect)
    requires Coherent(s.store) && Explains(p, actor, s, s', f) && f.Confirm?
    ensures Delta(p, actor, s, s')
  {
    forall id <- s.store.leases ensures LeaseMoves(actor, s, s', id) {
      var a, b := s.store.leases[id], s'.store.leases[id];
      if b != a {
        var i :| (f.txHash, i) in s'.inspections && Matches(a, i) && i.status.Success?
                 && i.tokenId == Some(a.labelHash);
        assert ProvenBy(s', b, i);
      }
    }
  }

  lemma SaveDelta(p: Policy, actor: Address, s: State, s': State, f: Effect)
    requires Coherent(s.store) && Explains(p, actor, s, s', f) && (f.NoCall? || f.Save?)
    ensures Delta(p, actor, s, s')
  {
  }

  lemma SubmitDelta(p: Policy, actor: Address, s: State, s': State, f: Effect)
    requires Coherent(s.store) && Explains(p, actor, s, s', f) && f.Submit?
    ensures Delta(p, actor, s, s')
  {
    forall id <- s.store.leases ensures LeaseMoves(actor, s, s', id) {
      if id == f.permitId { SubmittedMoves(actor, s, s', f); } else { UntouchedMoves(actor, s, s', id); }
    }
  }

  lemma SubmittedMoves(actor: Address, s: State, s': State, f: Effect)
    requires Coherent(s.store) && f.Submit? && Ours(s, f.permitId, actor) && SeesMore(s, s')
    requires s.store.leases[f.permitId].state.Leased? ==> s.store.leases[f.permitId].txHash.None?
    requires exists i :: (f.txHash, i) in s'.inspections && Matches(s.store.leases[f.permitId], i)
    requires s'.store == MarkSubmitted(s.store, f.permitId, f.txHash).0
    ensures LeaseMoves(actor, s, s', f.permitId)
  {
    var i :| (f.txHash, i) in s'.inspections && Matches(s.store.leases[f.permitId], i);
    assert s'.store.leases[f.permitId].txHash == Some(f.txHash) ==> SeenBy(s', s'.store.leases[f.permitId], i);
  }

  lemma CloseDelta(p: Policy, actor: Address, s: State, s': State, f: Effect)
    requires Coherent(s.store) && Explains(p, actor, s, s', f) && f.Close?
    ensures Delta(p, actor, s, s')
  {
    forall id <- s.store.leases ensures LeaseMoves(actor, s, s', id) {
      if id == f.permitId { ClosedMoves(actor, s, s', f); } else { UntouchedMoves(actor, s, s', id); }
    }
  }

  lemma UntouchedMoves(actor: Address, s: State, s': State, id: Hash)
    requires id in s.store.leases && SameIndexes(s.store, s'.store) && s'.store.leases[id] == s.store.leases[id]
    ensures LeaseMoves(actor, s, s', id)
  {
  }

  lemma ClosedMoves(actor: Address, s: State, s': State, f: Effect)
    requires Coherent(s.store) && f.Close? && Ours(s, f.permitId, actor) && MayClose(s, f.permitId, f.txHash, f.closing)
    requires Indexed(s.store, f.permitId) || LookedUp(s, f.permitId)
    requires s'.store == MarkClosed(s.store, f.permitId, f.txHash, f.closing).0 && SeesMore(s, s')
    ensures LeaseMoves(actor, s, s', f.permitId)
  {
    var a, b := s.store.leases[f.permitId], s'.store.leases[f.permitId];
    if a == b { return; }
    match f.closing
    case Failed =>
      var i :| (f.txHash, i) in s.inspections && Matches(a, i) && i.status.Reverted?;
      assert RevertedBy(s', b, i);
    case ManualReview => ReviewStays(s, s', a, b, f.txHash);
    case Expired => EndStays(s, s', a, b, false);
    case _ =>
  }

  lemma EffectDelta(p: Policy, actor: Address, s: State, s': State, f: Effect)
    requires Coherent(s.store) && Explains(p, actor, s, s', f)
    ensures Delta(p, actor, s, s')
  {
    match f
    case Acquire(c, now) => AcquireDelta(p, actor, s, s', c, now);
    case Sweep(cutoff) => SweepDelta(p, actor, s, s', cutoff);
    case Confirm(_, _) => ConfirmDelta(p, actor, s, s', f);
    case NoCall => SaveDelta(p, actor, s, s', f);
    case Save(_, _) => SaveDelta(p, actor, s, s', f);
    case Submit(_, _) => SubmitDelta(p, actor, s, s', f);
    case Close(_, _, _) => CloseDelta(p, actor, s, s', f);
  }

  lemma EffectKeepsCoherent(p: Policy, actor: Address, s: State, s': State, f: Effect)
    requires Coherent(s.store) && Explains(p, actor, s, s', f)
    ensures Coherent(s'.store)
  {
    if f.Acquire? {
      AcquireKeepsCoherent(s.store, f.candidate, f.now);
    } else if f.Sweep? {
      SecondLoopRemovesNothing(s.store, f.cutoff);
    } else {
      IndexesKeepCoherent(s.store, s'.store);
    }
  }

  lemma EffectKeeps(p: Policy, actor: Address, s: State, s': State, f: Effect)
    requires Coherent(s.store) && Explains(p, actor, s, s', f)
    ensures Delta(p, actor, s, s') && Coherent(s'.store)
  {
    EffectDelta(p, actor, s, s', f);
    EffectKeepsCoherent(p, actor, s, s', f);
  }

  // ---- what each step does ----

  ghost predicate Keeps(p: Policy, actor: Address, s: State, s': State) {
    Delta(p, actor, s, s') && Coherent(s'.store)
  }

  lemma SubmitMarkedKeeps(p: Policy, s: State, t: nat)
    requires WellFormed(s) && t in s.tasks && s.tasks[t].SubmitMarked? && TaskHolds(p, s, s.tasks[t])
    ensures Keeps(p, Requester(s.tasks[t]), s, AfterSubmitResume(s, t))
  {
    var sub, i := s.tasks[t].submission, s.tasks[t].inspection;
    var f := if !s.tasks[t].marked || i.status.Pending? then NoCall
    else if i.status.Reverted? || i.status.Invalid? || i.tokenId != Some(s.store.leases[sub.permitId].labelHash)
    then NoCall
    else Confirm(sub.permitId, sub.txHash);
    assert (sub.txHash, i) in AfterSubmitResume(s, t).inspections;
    EffectKeeps(p, sub.requester, s, AfterSubmitResume(s, t), f);
  }

  lemma ReconcileInspectedKeeps(p: Policy, s: State, t: nat, i: Inspection)
    requires WellFormed(s) && t in s.tasks && s.tasks[t].ReconcileInspecting? && TaskHolds(p, s, s.tasks[t])
    ensures Keeps(p, Requester(s.tasks[t]), s, AfterReconcileInspected(s, t, i))
  {
    var id := s.tasks[t].permitId;
    var l := s.store.leases[id];
    var tx := l.txHash.value;
    var f := if i.Unknown? || i.status.Pending? then NoCall
    else if Matches(l, i) && i.status.Success? && i.tokenId == Some(l.labelHash) then Confirm(id, tx)
    else NoCall;
    var s' := AfterReconcileInspected(s, t, i);
    assert (tx, i) in s'.inspections;
    EffectKeeps(p, s.tasks[t].owner, s, s', f);
  }

  lemma SubmitInspectedKeeps(p: Policy, s: State, t: nat, i: Inspection)
    requires WellFormed(s) && t in s.tasks && s.tasks[t].SubmitInspecting? && TaskHolds(p, s, s.tasks[t])
    requires Bound(s, s.store.leases[s.tasks[t].submission.permitId])
    ensures Keeps(p, Requester(s.tasks[t]), s, AfterSubmitInspected(s, t, i))
  {
    var sub := s.tasks[t].submission;
    var l := s.store.leases[sub.permitId];
    var f := if !i.Unknown? && Matches(l, i) && (l.state.Leased? || l.state.Submitted?)
    then Submit(sub.permitId, sub.txHash) else NoCall;
    assert (sub.txHash, i) in AfterSubmitInspected(s, t, i).inspections;
    EffectKeeps(p, sub.requester, s, AfterSubmitInspected(s, t, i), f);
  }

  lemma ChainReadKeeps(p: Policy, s: State, t: nat, id: Hash, nonce: nat, amount: nat)
    requires WellFormed(s) && t in s.tasks && s.tasks[t].IssueReading? && id !in s.store.leases
    requires s.tasks[t].issuanceNow <= s.clock && 15 <= p.ttlSeconds <= 295
    ensures Keeps(p, Requester(s.tasks[t]), s, AfterChainRead(p, s, t, id, nonce, amount))
  {
    var c := BuildLease(p, s.tasks[t].intent, s.tasks[t].issuanceNow, id, nonce, amount);
    EffectKeeps(p, c.requester, s, AfterChainRead(p, s, t, id, nonce, amount), Acquire(c, s.tasks[t].issuanceNow));
  }

  lemma ResumeKeeps(p: Policy, s: State, t: nat)
    requires WellFormed(s) && Enabled(p, s, Resume(t)) && TaskHolds(p, s, s.tasks[t])
    ensures Keeps(p, Requester(s.tasks[t]), s, Step(p, s, Resume(t)))
  {
    if s.tasks[t].SubmitMarked? {
      SubmitMarkedKeeps(p, s, t);
    } else if s.tasks[t].Marking? {
      MarkingKeeps(p, s, t);
    } else {
      EffectKeeps(p, Requester(s.tasks[t]), s, Step(p, s, Resume(t)), NoCall);
    }
  }

  lemma SignerKeeps(p: Policy, s: State, t: nat, signature: Hash)
    requires WellFormed(s) && t in s.tasks && s.tasks[t].IssueSigning? && TaskHolds(p, s, s.tasks[t])
    ensures Keeps(p, Requester(s.tasks[t]), s, AfterSigning(s, t, signature))
  {
    EffectKeeps(p, Requester(s.tasks[t]), s, AfterSigning(s, t, signature), Save(s.tasks[t].lease, signature));
  }

  lemma ProofKeeps(p: Policy, s: State, t: nat, ts: int, used: bool)
    requires WellFormed(s) && t in s.tasks && s.tasks[t].ReconcileProving? && TaskHolds(p, s, s.tasks[t])
    ensures Keeps(p, Requester(s.tasks[t]), s, AfterProof(s, t, ts, used))
  {
    EffectKeeps(p, s.tasks[t].owner, s, AfterProof(s, t, ts, used), NoCall);
  }

  lemma MarkingKeeps(p: Policy, s: State, t: nat)
    requires WellFormed(s) && t in s.tasks && s.tasks[t].Marking? && TaskHolds(p, s, s.tasks[t])
    ensures Keeps(p, Requester(s.tasks[t]), s, AfterMarking(s, t))
  {
    var mark := s.tasks[t];
    var f := if mark.found then Close(mark.permitId, mark.txHash, mark.closing) else NoCall;
    assert mark.found ==> MarksFound(s.tasks[t], mark.permitId);
    EffectKeeps(p, mark.owner, s, AfterMarking(s, t), f);
  }

  lemma SweepKeeps(p: Policy, actor: Address, s: State, s': State, cutoff: int)
    requires Coherent(s.store) && cutoff <= s.clock && s' == s.(store := SweepRequests(s.store, cutoff))
    ensures Keeps(p, actor, s, s')
  {
    EffectKeeps(p, actor, s, s', Sweep(cutoff));
  }

  lemma CleanupKeeps(p: Policy, actor: Address, s: State, cutoff: int)
    requires Coherent(s.store) && cutoff <= s.clock
    ensures Keeps(p, actor, s, AfterCleanup(s, cutoff))
  {
    CleanupIsOneSweep(s.store, cutoff);
    SweepKeeps(p, actor, s, AfterCleanup(s, cutoff), cutoff);
  }

  predicate Quiet(e: Event) {
    e.Tick? || e.CallIssue? || e.CallSubmit? || e.CallReconcile? || e.Enter? || e.Abort? || e.PolicyLive?
  }

  lemma QuietKeeps(p: Policy, actor: Address, s: State, e: Event)
    requires WellFormed(s) && Enabled(p, s, e) && Quiet(e)
    ensures Keeps(p, actor, s, Step(p, s, e))
  {
    EffectKeeps(p, actor, s, Step(p, s, e), NoCall);
  }

  function Actor(s: State, e: Event): Address {
    if Quiet(e) || e.CleanupRuns? || e.task !in s.tasks then 0 else Requester(s.tasks[e.task])
  }

  ghost predicate ActorHolds(p: Policy, s: State, e: Event)
    requires Enabled(p, s, e)
  {
    && (!Quiet(e) && !e.CleanupRuns? ==> TaskHolds(p, s, s.tasks[e.task]))
    && (e.ChainRead? ==> 15 <= p.ttlSeconds <= 295)
  }

  lemma StepKeeps(p: Policy, s: State, e: Event)
    requires WellFormed(s) && Enabled(p, s, e) && AllBound(s) && ActorHolds(p, s, e)
    ensures Keeps(p, Actor(s, e), s, Step(p, s, e))
  {
    if Quiet(e) {
      QuietKeeps(p, Actor(s, e), s, e);
      return;
    }
    match e
    case CleanupRuns(cutoff) => CleanupKeeps(p, 0, s, cutoff);
    case ChainRead(t, id, nonce, amount) => ChainReadKeeps(p, s, t, id, nonce, amount);
    case Resume(t) => ResumeKeeps(p, s, t);
    case SignerAnswers(t, signature) => SignerKeeps(p, s, t, signature);
    case ChainInspected(t, i) =>
      if s.tasks[t].SubmitInspecting? {
        SubmitInspectedKeeps(p, s, t, i);
      } else {
        ReconcileInspectedKeeps(p, s, t, i);
      }
    case ExpiryProven(t, ts, used) => ProofKeeps(p, s, t, ts, used);
  }

  // ---- arithmetic of the permit window ----

  lemma SecondsMonotone(a: int, b: int)
    requires a <= b
    ensures Seconds(a) <= Seconds(b)
  {
  }

  lemma SecondsShift(a: int, seconds: int)
    ensures Seconds(a + seconds * 1000) == Seconds(a) + seconds
  {
  }

  // A permit built by issue() meets the SDK's window at any second from its issuance to its end, for
  // every TTL in 15..295.
  lemma BuiltPermitMeetsWindow(p: Policy, l: LeaseView, now: int)
    requires BuiltByIssue(p, l) && IssuedMs(p, l) <= now
    ensures MeetsWindow(l.permit, Seconds(now)) <==> Seconds(now) <= l.permit.validUntil
    ensures l.permit.validUntil - l.permit.validAfter == p.ttlSeconds + SKEW_SECONDS
  {
    SecondsMonotone(IssuedMs(p, l), now);
    SecondsShift(IssuedMs(p, l), p.ttlSeconds);
  }

  // ---- each part is kept ----

  predicate Inner(e: Event) {
    e.Abort? || e.PolicyLive? || e.ChainRead? || e.Resume? || e.SignerAnswers? || e.ChainInspected? || e.ExpiryProven?
  }

  lemma StepMovesTask(p: Policy, s: State, e: Event)
    requires WellFormed(s) && Enabled(p, s, e) && Inner(e)
    ensures MovesTask(s, Step(p, s, e), e.task) && !Queued(s.tasks[e.task])
  {
  }

  lemma MovesKeepLock(s: State, s': State, t: nat)
    requires t in s.tasks && !Queued(s.tasks[t]) && MovesTask(s, s', t) && LockHeld(s)
    ensures LockHeld(s')
  {
  }

  lemma EnterKeepsLock(s: State, s': State, t: nat)
    requires LockHeld(s) && t in s.tasks && Queued(s.tasks[t]) && Requester(s.tasks[t]) !in s.holder
    requires s'.tasks == s.tasks[t := Inside(s.tasks[t])] && s'.holder == s.holder[Requester(s.tasks[t]) := t]
    ensures LockHeld(s')
  {
  }

  lemma StepKeepsLock(p: Policy, s: State, e: Event)
    requires WellFormed(s) && Enabled(p, s, e) && LockHeld(s)
    ensures LockHeld(Step(p, s, e))
  {
    if Inner(e) {
      StepMovesTask(p, s, e);
      MovesKeepLock(s, Step(p, s, e), e.task);
    } else if e.Enter? {
      EnterKeepsLock(s, Step(p, s, e), e.task);
    }
  }

  lemma TermsStay(p: Policy, actor: Address, s: State, s': State, id: Hash)
    requires id in s.store.leases && LeaseMoves(actor, s, s', id) && s.clock <= s'.clock
    requires BuiltByIssue(p, s.store.leases[id]) && IssuedMs(p, s.store.leases[id]) <= s.clock
    ensures BuiltByIssue(p, s'.store.leases[id]) && IssuedMs(p, s'.store.leases[id]) <= s'.clock
  {
  }

  lemma DeltaKeepsTerms(p: Policy, actor: Address, s: State, s': State)
    requires Delta(p, actor, s, s') && LeasesTimely(p, s)
    ensures LeasesTimely(p, s')
  {
    forall id <- s'.store.leases
      ensures BuiltByIssue(p, s'.store.leases[id]) && IssuedMs(p, s'.store.leases[id]) <= s'.clock
    {
      if id in s.store.leases { TermsStay(p, actor, s, s', id); } else { assert NewLease(p, actor, s, s', id); }
    }
  }

  lemma DeltaKeepsExclusive(p: Policy, actor: Address, s: State, s': State)
    requires Delta(p, actor, s, s') && NothingLost(s)
    ensures NothingLost(s')
  {
    forall id <- s'.store.leases ensures StillExclusive(s', id) {
      if id in s.store.leases { assert StillExclusive(s, id) && LeaseMoves(actor, s, s', id); }
    }
  }

  lemma BoundSeesMore(s: State, s': State, l: LeaseView)
    requires SeesMore(s, s') && Bound(s, l)
    ensures Bound(s', l)
  {
    SeenStays(s, s', l, l);
    if l.state.Confirmed? {
      var i :| ProvenBy(s, l, i);
      assert ProvenBy(s', l, i);
    } else if l.state.ManualReview? {
      ReviewStays(s, s', l, l, l.txHash.value);
    } else if l.state.Failed? || (l.state.Expired? && l.txHash.Some? && !EndedBy(s, l, false)) {
      var i :| RevertedBy(s, l, i);
      RevertStays(s, s', l, l, i);
    }
  }

  lemma BoundStays(actor: Address, s: State, s': State, id: Hash)
    requires id in s.store.leases && LeaseMoves(actor, s, s', id) && SeesMore(s, s') && Bound(s, s.store.leases[id])
    ensures Bound(s', s'.store.leases[id])
  {
    var a, b := s.store.leases[id], s'.store.leases[id];
    if a.txHash == b.txHash { SeenStays(s, s', a, b); }
    if a == b {
      BoundSeesMore(s, s', a);
    } else if a.state.Failed? {
      var i :| RevertedBy(s, a, i);
      RevertStays(s, s', a, b, i);
    }
  }

  lemma DeltaKeepsBound(p: Policy, actor: Address, s: State, s': State)
    requires Delta(p, actor, s, s') && AllBound(s)
    ensures AllBound(s')
  {
    forall id <- s'.store.leases ensures Bound(s', s'.store.leases[id]) {
      if id in s.store.leases {
        assert Bound(s, s.store.leases[id]);
        BoundStays(actor, s, s', id);
      }
    }
  }

  lemma DeltaKeepsSignatures(p: Policy, actor: Address, s: State, s': State)
    requires Delta(p, actor, s, s') && SignaturesHold(s)
    ensures SignaturesHold(s')
  {
    forall id <- s'.store.signed
      ensures id in s'.store.leases && s'.store.signed[id].permit == s'.store.leases[id].permit
    {
      assert SignatureMoves(s, s', id) && id in s.store.leases && LeaseMoves(actor, s, s', id);
    }
  }

  // ---- what the waiting calls rely on ----

  // A step by one call keeps what every other call relies on: in-flight issues and submissions of the same
  // requester cannot interfere, because only one of them is inside the lock.
  lemma OthersStillHold(p: Policy, actor: Address, s: State, s': State, task: Task)
    requires Delta(p, actor, s, s') && TaskHolds(p, s, task) && SignaturesHold(s) && AllBound(s)
    requires Requester(task) == actor ==> Queued(task)
    ensures TaskHolds(p, s', task)
  {
    match task
    case IssueReading(i, now) =>
      forall id <- s'.store.leases
        ensures s'.store.leases[id].requester == i.requester ==> IssuedMs(p, s'.store.leases[id]) <= now
      {
        if id in s.store.leases { assert LeaseMoves(actor, s, s', id); } else { assert NewLease(p, actor, s, s', id); }
      }
    case IssueAcquired(i, now, id) => assert LeaseMoves(actor, s, s', id);
    case IssueLooked(i, now, id, existing) => assert LeaseMoves(actor, s, s', id) && SignatureMoves(s, s', id);
    case IssueSigning(i, now, id) => assert LeaseMoves(actor, s, s', id);
    case SubmitLooked(sub, found) => if found { assert LeaseMoves(actor, s, s', sub.permitId); }
    case SubmitInspecting(sub) =>
      assert LeaseMoves(actor, s, s', sub.permitId) && Bound(s, s.store.leases[sub.permitId]);
    case SubmitMarked(sub, i, marked) => assert LeaseMoves(actor, s, s', sub.permitId);
    case ReconcileQueued(id, o) => assert LeaseMoves(actor, s, s', id);
    case ReconcileEntered(id, o) => assert LeaseMoves(actor, s, s', id);
    case ReconcileLooked(id, o, _) => assert LeaseMoves(actor, s, s', id);
    case ReconcileInspecting(id, o) => assert LeaseMoves(actor, s, s', id);
    case ReconcileProving(id, o) => assert LeaseMoves(actor, s, s', id);
    case Marking(id, o, tx, closing, _) =>
      assert LeaseMoves(actor, s, s', id);
      MayCloseStays(s, s', id, tx, closing);
    case _ =>
  }

  lemma ChainReadMovesOn(p: Policy, s: State, t: nat, id: Hash, nonce: nat, amount: nat)
    requires WellFormed(s) && t in s.tasks && s.tasks[t].IssueReading? && id !in s.store.leases
    requires TaskHolds(p, s, s.tasks[t])
    ensures var s' := AfterChainRead(p, s, t, id, nonce, amount); t in s'.tasks ==> TaskHolds(p, s', s'.tasks[t])
  {
    var c := BuildLease(p, s.tasks[t].intent, s.tasks[t].issuanceNow, id, nonce, amount);
    AcquireDisplaces(s.store, c, s.tasks[t].issuanceNow);
    AcquireDecides(s.store, c, s.tasks[t].issuanceNow);
  }

  lemma IssueMovesOn(p: Policy, s: State, t: nat)
    requires WellFormed(s) && t in s.tasks && (s.tasks[t].IssueAcquired? || s.tasks[t].IssueLooked?)
    requires TaskHolds(p, s, s.tasks[t]) && LeasesTimely(p, s) && SignaturesHold(s)
    ensures var s' := AfterIssueResume(s, t); t in s'.tasks ==> TaskHolds(p, s', s'.tasks[t])
  {
    if s.tasks[t].IssueAcquired? {
      BuiltPermitMeetsWindow(p, s.store.leases[s.tasks[t].lease], s.tasks[t].issuanceNow);
    }
  }

  // The submission waits on a lease that is leased or expired: another state would have come with a
  // transaction hash, which was checked before the inspection.
  lemma SubmitMovesOn(p: Policy, s: State, t: nat)
    requires WellFormed(s) && t in s.tasks && (s.tasks[t].SubmitEntered? || s.tasks[t].SubmitLooked?)
    requires TaskHolds(p, s, s.tasks[t]) && AllBound(s)
    ensures var s' := AfterSubmitResume(s, t); t in s'.tasks ==> TaskHolds(p, s', s'.tasks[t])
  {
    if s.tasks[t].SubmitLooked? && s.tasks[t].found {
      assert Bound(s, s.store.leases[s.tasks[t].submission.permitId]);
    }
  }

  lemma LookUpHolds(p: Policy, s: State, t: nat, id: Hash, owner: Address, tx: Hash, closing: LeaseState)
    requires Ours(s, id, owner) && MayClose(s, id, tx, closing)
    ensures var s' := LookUp(s, t, id, owner, tx, closing); TaskHolds(p, s', s'.tasks[t])
  {
    MayCloseStays(s, LookUp(s, t, id, owner, tx, closing), id, tx, closing);
  }

  lemma SubmitMarkedMovesOn(p: Policy, s: State, t: nat)
    requires WellFormed(s) && t in s.tasks && s.tasks[t].SubmitMarked? && TaskHolds(p, s, s.tasks[t])
    ensures var s' := AfterSubmitResume(s, t); t in s'.tasks ==> TaskHolds(p, s', s'.tasks[t])
  {
    var sub, i := s.tasks[t].submission, s.tasks[t].inspection;
    var l := s.store.leases[sub.permitId];
    if s.tasks[t].marked && !i.status.Pending? {
      if i.status.Reverted? {
        LookUpHolds(p, s, t, sub.permitId, sub.requester, sub.txHash, Failed);
      } else if i.status.Invalid? || i.tokenId != Some(l.labelHash) {
        assert RefutedBy(s, l, sub.txHash, i);
        LookUpHolds(p, s, t, sub.permitId, sub.requester, sub.txHash, ManualReview);
      }
    }
  }

  lemma InspectedMovesOn(p: Policy, s: State, t: nat, i: Inspection)
    requires WellFormed(s) && t in s.tasks && s.tasks[t].SubmitInspecting? && TaskHolds(p, s, s.tasks[t])
    ensures var s' := AfterSubmitInspected(s, t, i); t in s'.tasks ==> TaskHolds(p, s', s'.tasks[t])
    ensures AfterSubmitInspected(s, t, i).bindingMissing == s.bindingMissing
  {
  }

  lemma ReconcileMovesOn(p: Policy, s: State, t: nat, e: Event)
    requires WellFormed(s) && Enabled(p, s, e)
    requires e == Resume(t) && (s.tasks[t].ReconcileEntered? || s.tasks[t].ReconcileLooked?)
    requires TaskHolds(p, s, s.tasks[t])
    ensures var s' := Step(p, s, e); t in s'.tasks ==> TaskHolds(p, s', s'.tasks[t])
  {
  }

  lemma ProofMovesOn(p: Policy, s: State, t: nat, blockTimestamp: int, used: bool)
    requires WellFormed(s) && t in s.tasks && s.tasks[t].ReconcileProving? && TaskHolds(p, s, s.tasks[t])
    ensures var s' := AfterProof(s, t, blockTimestamp, used); t in s'.tasks ==> TaskHolds(p, s', s'.tasks[t])
  {
    var id := s.tasks[t].permitId;
    var l := s.store.leases[id];
    var proof := Expiry(id, blockTimestamp, used);
    var s1 := s.(proofs := s.proofs + {proof});
    if l.permit.validUntil < blockTimestamp {
      assert proof in s1.proofs && l.permitId == id;
      LookUpHolds(p, s1, t, id, s.tasks[t].owner, l.txHash.value, if used then ManualReview else Expired);
    }
  }

  lemma ReconcileInspectedMovesOn(p: Policy, s: State, t: nat, i: Inspection)
    requires WellFormed(s) && t in s.tasks && s.tasks[t].ReconcileInspecting? && TaskHolds(p, s, s.tasks[t])
    ensures var s' := AfterReconcileInspected(s, t, i); t in s'.tasks ==> TaskHolds(p, s', s'.tasks[t])
  {
    var id := s.tasks[t].permitId;
    var l := s.store.leases[id];
    var s1 := s.(inspections := s.inspections + {(l.txHash.value, i)});
    if i.Seen? && !i.status.Pending? {
      if i.status.Reverted? && Matches(l, i) {
        assert (l.txHash.value, i) in s1.inspections;
        LookUpHolds(p, s1, t, id, s.tasks[t].owner, l.txHash.value, Failed);
      } else if !(Matches(l, i) && i.status.Success? && i.tokenId == Some(l.labelHash)) {
        assert RefutedBy(s1, l, l.txHash.value, i);
        LookUpHolds(p, s1, t, id, s.tasks[t].owner, l.txHash.value, ManualReview);
      }
    }
  }

  lemma ActorMovesOn(p: Policy, s: State, e: Event)
    requires WellFormed(s) && Enabled(p, s, e) && TasksHold(p, s) && LeasesTimely(p, s) && SignaturesHold(s)
             && AllBound(s)
    requires !e.Tick? && !e.CleanupRuns?
    ensures var s' := Step(p, s, e); e.task in s'.tasks ==> TaskHolds(p, s', s'.tasks[e.task])
  {
    if e.CallIssue? || e.CallSubmit? || e.CallReconcile? {
    } else {
      assert TaskHolds(p, s, s.tasks[e.task]);
      match e
      case ChainRead(t, id, nonce, amount) => ChainReadMovesOn(p, s, t, id, nonce, amount);
      case Resume(t) =>
        if s.tasks[t].IssueAcquired? || s.tasks[t].IssueLooked? { IssueMovesOn(p, s, t); }
        else if s.tasks[t].ReconcileEntered? || s.tasks[t].ReconcileLooked? { ReconcileMovesOn(p, s, t, e); }
        else if s.tasks[t].Marking? { assert t !in AfterMarking(s, t).tasks; }
        else if s.tasks[t].SubmitMarked? { SubmitMarkedMovesOn(p, s, t); }
        else { SubmitMovesOn(p, s, t); }
      case ChainInspected(t, i) =>
        if s.tasks[t].SubmitInspecting? { InspectedMovesOn(p, s, t, i); }
        else { ReconcileInspectedMovesOn(p, s, t, i); }
      case ExpiryProven(t, ts, used) => ProofMovesOn(p, s, t, ts, used);
      case _ =>
    }
  }

  lemma StepKeepsTasks(p: Policy, s: State, e: Event)
    requires Inv(p, s) && Enabled(p, s, e) && ActorHolds(p, s, e)
    ensures TasksHold(p, Step(p, s, e))
  {
    var s' := Step(p, s, e);
    forall t <- s'.tasks ensures TaskHolds(p, s', s'.tasks[t]) {
      if !e.Tick? && !e.CleanupRuns? && t == e.task {
        ActorMovesOn(p, s, e);
      } else {
        OtherTaskHolds(p, s, e, t);
      }
    }
  }

  lemma OtherTaskHolds(p: Policy, s: State, e: Event, t: nat)
    requires Inv(p, s) && Enabled(p, s, e) && ActorHolds(p, s, e)
    requires t in Step(p, s, e).tasks && (!e.Tick? && !e.CleanupRuns? ==> t != e.task)
    ensures TaskHolds(p, Step(p, s, e), Step(p, s, e).tasks[t])
  {
    var s' := Step(p, s, e);
    if Inner(e) { StepMovesTask(p, s, e); }
    assert t in s.tasks && s'.tasks[t] == s.tasks[t];
    var task := s.tasks[t];
    assert TaskHolds(p, s, task);
    if Quiet(e) {
      QuietKeeps(p, Requester(task) + 1, s, e);
      OthersStillHold(p, Requester(task) + 1, s, s', task);
    } else if e.CleanupRuns? {
      CleanupKeeps(p, Requester(task) + 1, s, e.cutoff);
      OthersStillHold(p, Requester(task) + 1, s, s', task);
    } else {
      StepKeeps(p, s, e);
      OthersStillHold(p, Actor(s, e), s, s', task);
    }
  }

  lemma HoldsGround(p: Policy, s: State)
    requires TasksHold(p, s)
    ensures forall t <- s.tasks :: Grounded(s, s.tasks[t])
  {
    forall t <- s.tasks ensures Grounded(s, s.tasks[t]) { assert TaskHolds(p, s, s.tasks[t]); }
  }

  // ---- what observers have seen ----

  lemma DeltaKeepsIssued(p: Policy, actor: Address, s: State, s': State, r: Issued)
    requires Delta(p, actor, s, s') && SignaturesHold(s) && IssuedIsStored(s, r)
    ensures IssuedIsStored(s', r)
  {
    assert LeaseMoves(actor, s, s', r.permit.permitId) && SignatureMoves(s, s', r.permit.permitId);
  }

  lemma ResumedIssueIsStored(p: Policy, s: State, t: nat, s': State, r: Issued)
    requires WellFormed(s) && t in s.tasks && TaskHolds(p, s, s.tasks[t]) && LeasesTimely(p, s)
    requires (s.tasks[t].IssueAcquired? || s.tasks[t].IssueLooked?) && s' == AfterIssueResume(s, t)
    requires r in s'.issued && r !in s.issued
    ensures IssuedIsStored(s', r)
  {
    assert BuiltByIssue(p, s.store.leases[s.tasks[t].lease]);
  }

  lemma SignedIssueIsStored(p: Policy, s: State, t: nat, signature: Hash, s': State, r: Issued)
    requires WellFormed(s) && t in s.tasks && TaskHolds(p, s, s.tasks[t]) && LeasesTimely(p, s)
    requires s.tasks[t].IssueSigning? && s' == AfterSigning(s, t, signature)
    requires r in s'.issued && r !in s.issued
    ensures IssuedIsStored(s', r)
  {
    assert BuiltByIssue(p, s.store.leases[s.tasks[t].lease]);
  }

  lemma OnlyIssueReturns(p: Policy, s: State, e: Event)
    requires WellFormed(s) && Enabled(p, s, e)
    ensures Step(p, s, e).issued != s.issued ==>
              || (e.Resume? && (s.tasks[e.task].IssueAcquired? || s.tasks[e.task].IssueLooked?))
              || e.SignerAnswers?
  {
  }

  lemma StepKeepsIssued(p: Policy, s: State, e: Event)
    requires WellFormed(s) && Enabled(p, s, e) && ActorHolds(p, s, e)
    requires IssuedHolds(s) && SignaturesHold(s) && LeasesTimely(p, s) && Delta(p, Actor(s, e), s, Step(p, s, e))
    ensures IssuedHolds(Step(p, s, e))
  {
    var s' := Step(p, s, e);
    OnlyIssueReturns(p, s, e);
    forall r <- s'.issued ensures IssuedIsStored(s', r) {
      if r in s.issued {
        DeltaKeepsIssued(p, Actor(s, e), s, s', r);
      } else if e.SignerAnswers? {
        SignedIssueIsStored(p, s, e.task, e.signature, s', r);
      } else {
        ResumedIssueIsStored(p, s, e.task, s', r);
      }
    }
  }

  lemma DeltaKeepsPair(p: Policy, actor: Address, s: State, s': State, a: Hash, b: Hash, at: int)
    requires Delta(p, actor, s, s') && a in s.store.leases && b in s.store.leases && PairApart(s, a, b, at)
    ensures PairApart(s', a, b, at)
  {
    assert LeaseMoves(actor, s, s', a) && LeaseMoves(actor, s, s', b);
  }

  lemma DeltaKeepsAcquisition(p: Policy, actor: Address, s: State, s': State, q: Acquisition)
    requires Delta(p, actor, s, s') && AcquisitionHolds(p, s, q)
    ensures AcquisitionHolds(p, s', q)
  {
    assert LeaseMoves(actor, s, s', q.permitId);
  }

  // The heart of exclusion: an acquisition that succeeds leaves no competing lease that is neither
  // confirmed nor over at the real time of the acquisition.
  lemma AcquiredApart(p: Policy, s: State, s': State, c: LeaseView, now: int, a: Hash)
    requires Coherent(s.store) && NothingLost(s) && c.permitId !in s.store.leases && now <= s.clock
    requires AcquireLease(s.store, c, now).1.Acquired? && s'.store == AcquireLease(s.store, c, now).0
    requires a in s.store.leases
    ensures PairApart(s', a, c.permitId, s.clock)
  {
    AcquireDisplaces(s.store, c, now);
    AcquireDecides(s.store, c, now);
    assert StillExclusive(s, a);
  }

  lemma StepKeepsAcquisitions(p: Policy, s: State, e: Event)
    requires Inv(p, s) && Enabled(p, s, e) && ActorHolds(p, s, e)
    ensures AcquisitionsHold(p, Step(p, s, e)) && NoneCompete(Step(p, s, e))
  {
    var s' := Step(p, s, e);
    StepKeeps(p, s, e);
    if e.ChainRead? {
      var task := s.tasks[e.task];
      ChainReadAcquires(p, s, e.task, e.permitId, e.nonce, e.amount);
      AcquisitionGrows(p, task.intent.requester, s, s',
                       BuildLease(p, task.intent, task.issuanceNow, e.permitId, e.nonce, e.amount), task.issuanceNow);
    } else {
      LeasesOnlyGrow(p, s, e);
      assert s'.acquisitions == s.acquisitions;
      forall k | 0 <= k < |s'.acquisitions| ensures AcquisitionHolds(p, s', s'.acquisitions[k]) {
        DeltaKeepsAcquisition(p, Actor(s, e), s, s', s.acquisitions[k]);
      }
      forall j, k | 0 <= j < k < |s'.acquisitions|
        ensures PairApart(s', s'.acquisitions[j].permitId, s'.acquisitions[k].permitId, s'.acquisitions[k].at)
      {
        DeltaKeepsPair(p, Actor(s, e), s, s', s.acquisitions[j].permitId, s.acquisitions[k].permitId,
                       s.acquisitions[k].at);
      }
    }
  }

  lemma LeasesOnlyGrow(p: Policy, s: State, e: Event)
    requires WellFormed(s) && Enabled(p, s, e) && !e.ChainRead?
    ensures NoNewLease(s, Step(p, s, e))
  {
  }

  ghost predicate Acquires(s: State, s': State, c: LeaseView, now: int)
    requires Coherent(s.store)
  {
    && s'.clock == s.clock && s'.store == AcquireLease(s.store, c, now).0
    && s'.acquisitions ==
       s.acquisitions + if AcquireLease(s.store, c, now).1.Acquired? then [Acquisition(c.permitId, s.clock)] else []
  }

  lemma ChainReadAcquires(p: Policy, s: State, t: nat, id: Hash, nonce: nat, amount: nat)
    requires Coherent(s.store) && t in s.tasks && s.tasks[t].IssueReading?
    ensures Acquires(s, AfterChainRead(p, s, t, id, nonce, amount),
                     BuildLease(p, s.tasks[t].intent, s.tasks[t].issuanceNow, id, nonce, amount),
                     s.tasks[t].issuanceNow)
  {
  }

  lemma AcquisitionGrows(p: Policy, actor: Address, s: State, s': State, c: LeaseView, now: int)
    requires Coherent(s.store) && NothingLost(s) && AcquisitionsHold(p, s) && NoneCompete(s)
    requires Delta(p, actor, s, s') && c.permitId !in s.store.leases && now <= s.clock && IssuedMs(p, c) <= s.clock
    requires Acquires(s, s', c, now)
    ensures AcquisitionsHold(p, s') && NoneCompete(s')
  {
    if AcquireLease(s.store, c, now).1.Acquired? {
      NewAcquisition(p, actor, s, s', c, now);
    } else {
      SameAcquisitions(p, s, s');
    }
  }

  lemma SameAcquisitions(p: Policy, s: State, s': State)
    requires AcquisitionsHold(p, s) && NoneCompete(s)
    requires s'.store == s.store && s'.acquisitions == s.acquisitions && s'.clock == s.clock
    ensures AcquisitionsHold(p, s') && NoneCompete(s')
  {
    forall k | 0 <= k < |s'.acquisitions| ensures AcquisitionHolds(p, s', s'.acquisitions[k]) {
      assert AcquisitionHolds(p, s, s.acquisitions[k]);
    }
    forall j, k | 0 <= j < k < |s'.acquisitions|
      ensures PairApart(s', s'.acquisitions[j].permitId, s'.acquisitions[k].permitId, s'.acquisitions[k].at)
    {
      assert PairApart(s, s.acquisitions[j].permitId, s.acquisitions[k].permitId, s.acquisitions[k].at);
    }
  }

  lemma NewAcquisition(p: Policy, actor: Address, s: State, s': State, c: LeaseView, now: int)
    requires Coherent(s.store) && NothingLost(s) && AcquisitionsHold(p, s) && NoneCompete(s)
    requires Delta(p, actor, s, s') && c.permitId !in s.store.leases && now <= s.clock && IssuedMs(p, c) <= s.clock
    requires AcquireLease(s.store, c, now).1.Acquired? && s'.store == AcquireLease(s.store, c, now).0
    requires s'.acquisitions == s.acquisitions + [Acquisition(c.permitId, s.clock)]
    ensures AcquisitionsHold(p, s') && NoneCompete(s')
  {
    var n := |s.acquisitions|;
    AcquireDisplaces(s.store, c, now);
    forall k | 0 <= k < n
      ensures s'.acquisitions[k] == s.acquisitions[k] && AcquisitionHolds(p, s', s.acquisitions[k])
    {
      DeltaKeepsAcquisition(p, actor, s, s', s.acquisitions[k]);
    }
    forall j, k | 0 <= j < k <= n
      ensures PairApart(s', s'.acquisitions[j].permitId, s'.acquisitions[k].permitId, s'.acquisitions[k].at)
    {
      assert AcquisitionHolds(p, s, s.acquisitions[j]);
      if k < n {
        assert AcquisitionHolds(p, s, s.acquisitions[k]);
        DeltaKeepsPair(p, actor, s, s', s.acquisitions[j].permitId, s.acquisitions[k].permitId, s.acquisitions[k].at);
      } else {
        AcquiredApart(p, s, s', c, now, s.acquisitions[j].permitId);
      }
    }
    forall i <- s'.store.leases ensures exists k :: 0 <= k < |s'.acquisitions| && s'.acquisitions[k].permitId == i {
      if i in s.store.leases {
        var k :| 0 <= k < n && s.acquisitions[k].permitId == i;
        assert s'.acquisitions[k].permitId == i;
      } else {
        assert s'.acquisitions[n].permitId == i;
      }
    }
  }

  // ---- times, and displaced leases ----

  lemma DeltaKeepsDisplaced(p: Policy, actor: Address, s: State, s': State)
    requires Delta(p, actor, s, s') && DisplacedAreDone(s)
    ensures DisplacedAreDone(s')
  {
    forall id <- s'.store.leases
      ensures Retained(s'.store, id) && !Indexed(s'.store, id) ==> !Exclusive(s'.store.leases[id].state)
    {
      if id in s.store.leases { assert LeaseMoves(actor, s, s', id); } else { assert NewLease(p, actor, s, s', id); }
    }
  }

  lemma ActorStarted(p: Policy, s: State, e: Event)
    requires WellFormed(s) && Enabled(p, s, e) && Inner(e) && StartedBy(s.tasks[e.task], s.clock)
    ensures e.task in Step(p, s, e).tasks ==> StartedBy(Step(p, s, e).tasks[e.task], s.clock)
  {
    if e.Resume? {
      assert Grounded(s, s.tasks[e.task]);
      if !s.tasks[e.task].IssueAcquired? && !s.tasks[e.task].IssueLooked? { StepMovesTask(p, s, e); }
    } else if !e.PolicyLive? && !e.ChainRead? && !e.SignerAnswers? {
      StepMovesTask(p, s, e);
    }
  }

  lemma OthersStarted(s: State, s': State, t: nat)
    requires TimesHold(s) && t in s.tasks && MovesTask(s, s', t)
    ensures forall u <- s'.tasks :: u != t ==> StartedBy(s'.tasks[u], s'.clock)
  {
    forall u <- s'.tasks | u != t ensures StartedBy(s'.tasks[u], s'.clock) { assert StartedBy(s.tasks[u], s.clock); }
  }

  lemma QuietKeepsStarted(p: Policy, s: State, e: Event)
    requires WellFormed(s) && Enabled(p, s, e) && !Inner(e) && TimesHold(s)
    ensures forall t <- Step(p, s, e).tasks :: StartedBy(Step(p, s, e).tasks[t], Step(p, s, e).clock)
  {
    var s' := Step(p, s, e);
    forall t <- s'.tasks ensures StartedBy(s'.tasks[t], s'.clock) {
      if t in s.tasks { assert StartedBy(s.tasks[t], s.clock); }
    }
  }

  // A step changes one task at most, and that one keeps its issuanceNow or takes the clock for it.
  lemma StepKeepsStarted(p: Policy, s: State, e: Event, s': State)
    requires WellFormed(s) && Enabled(p, s, e) && TimesHold(s) && s' == Step(p, s, e)
    ensures forall t <- s'.tasks :: StartedBy(s'.tasks[t], s'.clock)
  {
    if Inner(e) {
      StepMovesTask(p, s, e);
      assert StartedBy(s.tasks[e.task], s.clock);
      ActorStarted(p, s, e);
      OthersStarted(s, s', e.task);
    } else {
      QuietKeepsStarted(p, s, e);
    }
  }

  lemma OthersReturned(p: Policy, s: State, e: Event)
    requires WellFormed(s) && Enabled(p, s, e)
    requires !e.SignerAnswers? && !(e.Resume? && (s.tasks[e.task].IssueAcquired? || s.tasks[e.task].IssueLooked?))
    ensures Step(p, s, e).issued == s.issued && s.clock <= Step(p, s, e).clock
  {
    OnlyIssueReturns(p, s, e);
  }

  lemma IssueReturns(p: Policy, s: State, e: Event)
    requires WellFormed(s) && Enabled(p, s, e)
    requires e.SignerAnswers? || (e.Resume? && (s.tasks[e.task].IssueAcquired? || s.tasks[e.task].IssueLooked?))
    ensures ReturnsNow(s, Step(p, s, e), e.task)
  {
    assert Grounded(s, s.tasks[e.task]);
  }

  lemma StepKeepsReturned(p: Policy, s: State, e: Event, s': State)
    requires WellFormed(s) && Enabled(p, s, e) && TimesHold(s) && s' == Step(p, s, e)
    ensures forall r <- s'.issued :: r.issuanceNow <= r.returnedAt <= s'.clock
  {
    if e.SignerAnswers? || (e.Resume? && (s.tasks[e.task].IssueAcquired? || s.tasks[e.task].IssueLooked?)) {
      IssueReturns(p, s, e);
      assert StartedBy(s.tasks[e.task], s.clock);
    } else {
      OthersReturned(p, s, e);
    }
  }

  lemma StepKeepsTimes(p: Policy, s: State, e: Event)
    requires WellFormed(s) && Enabled(p, s, e) && TimesHold(s)
    ensures TimesHold(Step(p, s, e))
  {
    StepKeepsStarted(p, s, e, Step(p, s, e));
    StepKeepsReturned(p, s, e, Step(p, s, e));
  }

  // ---- runs ----

  lemma StepKeepsInv(p: Policy, s: State, e: Event)
    requires Inv(p, s) && Enabled(p, s, e)
    ensures Inv(p, Step(p, s, e))
  {
    var s' := Step(p, s, e);
    assert ActorHolds(p, s, e) by { ActorRelies(p, s, e); }
    StepKeeps(p, s, e);
    StepKeepsLock(p, s, e);
    StepKeepsTasks(p, s, e);
    HoldsGround(p, s');
    DeltaKeepsTerms(p, Actor(s, e), s, s');
    DeltaKeepsExclusive(p, Actor(s, e), s, s');
    DeltaKeepsBound(p, Actor(s, e), s, s');
    DeltaKeepsSignatures(p, Actor(s, e), s, s');
    StepKeepsIssued(p, s, e);
    StepKeepsAcquisitions(p, s, e);
    StepKeepsTimes(p, s, e);
    DeltaKeepsDisplaced(p, Actor(s, e), s, s');
    StepKeepsRest(p, s, e);
  }

  lemma ActorRelies(p: Policy, s: State, e: Event)
    requires TasksHold(p, s) && TermsHold(p, s) && Enabled(p, s, e)
    ensures ActorHolds(p, s, e)
  {
  }

  lemma StepKeepsRest(p: Policy, s: State, e: Event)
    requires WellFormed(s) && Enabled(p, s, e) && TermsHold(p, s) && ActorHolds(p, s, e) && !s.bindingMissing
    ensures !Step(p, s, e).bindingMissing
    ensures forall t <- Step(p, s, e).tasks :: IsIssue(Step(p, s, e).tasks[t]) ==> 15 <= p.ttlSeconds <= 295
  {
    if Inner(e) { StepMovesTask(p, s, e); }
    if e.ChainInspected? && s.tasks[e.task].SubmitInspecting? { InspectedMovesOn(p, s, e.task, e.inspection); }
  }
}

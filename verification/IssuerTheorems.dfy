// The permit issuer over whole runs: what holds in every interleaving.
module IssuerTheorems {
  import opened Options
  import opened Permits
  import opened Leases
  import opened IssuerProtocol
  import opened IssuerSafety

  // A run from the empty store: every event is enabled where it happens, and each state follows by Step.
  // Step is only defined on well-formed states; RunStays shows that a run never meets another.
  ghost predicate IsRun(p: Policy, states: seq<State>, events: seq<Event>) {
    && |states| == |events| + 1 && states[0] == INITIAL
    && forall k | 0 <= k < |events| ::
         Enabled(p, states[k], events[k]) && (WellFormed(states[k]) ==> states[k + 1] == Step(p, states[k], events[k]))
  }

  lemma {:induction false} RunStays(p: Policy, states: seq<State>, events: seq<Event>, k: nat)
    requires IsRun(p, states, events) && k <= |events|
    ensures Inv(p, states[k]) && WellFormed(states[k])
  {
    if k > 0 {
      RunStays(p, states, events, k - 1);
      StepKeepsInv(p, states[k - 1], events[k - 1]);
    }
  }

  ghost predicate Reachable(p: Policy, s: State) {
    exists states, events :: IsRun(p, states, events) && states[|events|] == s
  }

  lemma ReachableStays(p: Policy, s: State)
    requires Reachable(p, s)
    ensures Inv(p, s) && WellFormed(s)
  {
    var states, events :| IsRun(p, states, events) && states[|events|] == s;
    RunStays(p, states, events, |events|);
  }

  // ---- exclusion ----

  function CeilSeconds(milliseconds: int): int {
    (milliseconds + 999) / 1000
  }

  // How long the acquiring call spent between taking issuanceNow and acquireLease.
  function Delay(p: Policy, l: LeaseView, q: Acquisition): int {
    q.at - IssuedMs(p, l)
  }

  lemma WindowsApart(p: Policy, a: LeaseView, b: LeaseView, q: Acquisition)
    requires BuiltByIssue(p, a) && BuiltByIssue(p, b) && a.expiresAt <= q.at
    ensures a.permit.validUntil + 25 <= b.permit.validAfter + CeilSeconds(Delay(p, b, q))
    ensures Seconds(q.at) >= a.permit.validUntil + 30
  {
    SecondsShift(IssuedMs(p, a) + p.ttlSeconds * 1000, 30);
    SecondsMonotone(a.expiresAt, q.at);
    var delay := Delay(p, b, q);
    SecondsMonotone(q.at, IssuedMs(p, b) + CeilSeconds(delay) * 1000);
    SecondsShift(IssuedMs(p, b), CeilSeconds(delay));
  }

  // In every interleaving, for any two leases of one label or one requester, either the earlier one was
  // confirmed on chain, or its permit had been dead for 30 seconds at the real time the later one was
  // acquired; then the windows are 25 seconds apart less the later call's own delay, rounded up.
  lemma LivePermitsNeverCompete(p: Policy, s: State, j: nat, k: nat)
    requires Reachable(p, s) && j < k < |s.acquisitions|
    ensures var a, q := s.acquisitions[j].permitId, s.acquisitions[k];
            && a != q.permitId && a in s.store.leases && q.permitId in s.store.leases
            && var la, lb := s.store.leases[a], s.store.leases[q.permitId];
               Competes(la, lb) ==>
                 la.state.Confirmed?
                 || (&& la.expiresAt <= q.at && la.permit.validUntil + 30 <= Seconds(q.at)
                     && la.permit.validUntil + 25 <= lb.permit.validAfter + CeilSeconds(Delay(p, lb, q))
                     && (Delay(p, lb, q) == 0 ==> la.permit.validUntil + 25 <= lb.permit.validAfter))
  {
    ReachableStays(p, s);
    var a, q := s.acquisitions[j].permitId, s.acquisitions[k];
    assert AcquisitionHolds(p, s, s.acquisitions[j]) && AcquisitionHolds(p, s, q) && PairApart(s, a, q.permitId, q.at);
    var la, lb := s.store.leases[a], s.store.leases[q.permitId];
    if Competes(la, lb) && !la.state.Confirmed? {
      WindowsApart(p, la, lb, q);
    }
  }

  // Exactly when two windows are 25 seconds apart, for any two leases in acquisition order: when the earlier
  // reservation ends no later than the second at which the later call took its issuanceNow. Both are known
  // before acquireLease is called.
  lemma GapIsDecidedAtIssuance(p: Policy, s: State, j: nat, k: nat)
    requires Reachable(p, s) && j < k < |s.acquisitions|
    ensures var a, b := s.acquisitions[j].permitId, s.acquisitions[k].permitId;
            && a in s.store.leases && b in s.store.leases
            && var la, lb := s.store.leases[a], s.store.leases[b];
               la.permit.validUntil + 25 <= lb.permit.validAfter <==> Seconds(la.expiresAt) <= Seconds(IssuedMs(p, lb))
  {
    ReachableStays(p, s);
    assert AcquisitionHolds(p, s, s.acquisitions[j]) && AcquisitionHolds(p, s, s.acquisitions[k]);
    GapOfBuilt(p, s.store.leases[s.acquisitions[j].permitId], s.store.leases[s.acquisitions[k].permitId]);
  }

  lemma GapOfBuilt(p: Policy, a: LeaseView, b: LeaseView)
    requires BuiltByIssue(p, a) && BuiltByIssue(p, b)
    ensures a.permit.validUntil + 25 <= b.permit.validAfter <==> Seconds(a.expiresAt) <= Seconds(IssuedMs(p, b))
  {
    SecondsShift(IssuedMs(p, a) + p.ttlSeconds * 1000, 30);
  }

  // Every lease was acquired, so the theorem above speaks about all of them.
  lemma EveryLeaseWasAcquired(p: Policy, s: State, id: Hash)
    requires Reachable(p, s) && id in s.store.leases
    ensures exists k :: 0 <= k < |s.acquisitions| && s.acquisitions[k].permitId == id
  {
    ReachableStays(p, s);
  }

  // ---- the life of one lease ----

  // A transaction hash is bound once, confirmation and expiry are final, and the rest never changes.
  ghost predicate Follows(a: LeaseView, b: LeaseView) {
    && SameIdentity(a, b)
    && (a.txHash.Some? ==> b.txHash == a.txHash)
    && (a.tokenId.Some? ==> b.tokenId == a.tokenId)
    && (a.state.Confirmed? || a.state.Expired? || a.state.ManualReview? ==> b == a)
    && (a.state.Failed? ==> b.state.Failed? || b.state.Expired?)
    && (a.state.Submitted? ==> !b.state.Leased?)
  }

  lemma StepFollows(p: Policy, s: State, e: Event, id: Hash)
    requires Inv(p, s) && Enabled(p, s, e) && id in s.store.leases
    ensures var s' := Step(p, s, e);
            && id in s'.store.leases && Follows(s.store.leases[id], s'.store.leases[id])
            && Lifecycle(s.clock, s.store.leases[id], s'.store.leases[id])
            && (!Indexed(s.store, id) ==>
                  !Indexed(s'.store, id)
                  && (s'.store.leases[id] == s.store.leases[id]
                      || (s.store.leases[id].state.Submitted? && LookedUp(s, id))))
            && (!Retained(s.store, id) ==> !Retained(s'.store, id))
  {
    ActorRelies(p, s, e);
    StepKeeps(p, s, e);
    MovedFollows(Actor(s, e), s, Step(p, s, e), id);
  }

  lemma MovedFollows(actor: Address, s: State, s': State, id: Hash)
    requires id in s.store.leases && LeaseMoves(actor, s, s', id) && Bound(s, s.store.leases[id])
    ensures Follows(s.store.leases[id], s'.store.leases[id])
  {
  }

  // A mark only finds what is in the label index.
  lemma LooksUpIndexed(p: Policy, s: State, e: Event, t: nat, id: Hash)
    requires WellFormed(s) && Enabled(p, s, e) && t in Step(p, s, e).tasks && MarksFound(Step(p, s, e).tasks[t], id)
    ensures Indexed(s.store, id) || (t in s.tasks && s.tasks[t] == Step(p, s, e).tasks[t])
  {
    if Inner(e) { StepMovesTask(p, s, e); }
  }

  lemma StepLooksUp(p: Policy, s: State, e: Event, s': State, id: Hash)
    requires WellFormed(s) && Enabled(p, s, e) && s' == Step(p, s, e) && LookedUp(s', id) && !Indexed(s.store, id)
    ensures LookedUp(s, id)
  {
    var t :| t in s'.tasks && MarksFound(s'.tasks[t], id);
    LooksUpIndexed(p, s, e, t, id);
    assert MarksFound(s.tasks[t], id);
  }

  lemma {:induction false} LeaseHistory(p: Policy, states: seq<State>, events: seq<Event>, m: nat, n: nat, id: Hash)
    requires IsRun(p, states, events) && m <= n <= |events| && id in states[m].store.leases
    ensures id in states[n].store.leases && Follows(states[m].store.leases[id], states[n].store.leases[id])
    // Once displaced or cleaned up, a lease is out of the label index for good; it is frozen, unless it is
    // submitted and a mark had found it before it went.
    ensures !Indexed(states[m].store, id) ==>
              !Indexed(states[n].store, id)
              && (states[n].store.leases[id] == states[m].store.leases[id]
                  || (states[m].store.leases[id].state.Submitted? && LookedUp(states[m], id)))
    ensures !Indexed(states[m].store, id) && LookedUp(states[n], id) ==> LookedUp(states[m], id)
    ensures !Retained(states[m].store, id) ==> !Retained(states[n].store, id)
  {
    if m < n {
      LeaseHistory(p, states, events, m, n - 1, id);
      RunStays(p, states, events, n - 1);
      StepFollows(p, states[n - 1], events[n - 1], id);
      if !Indexed(states[m].store, id) && LookedUp(states[n], id) {
        StepLooksUp(p, states[n - 1], events[n - 1], states[n], id);
      }
    }
  }

  // Each state comes with its fields; a confirmation rests on an inspection of the bound transaction that
  // succeeded, matched the permit and minted the token of the label, a failure on one that reverted; and
  // the error about a missing transaction binding is never thrown.
  lemma LeasesStayBound(p: Policy, s: State, id: Hash)
    requires Reachable(p, s) && id in s.store.leases
    ensures !s.bindingMissing
    ensures var l := s.store.leases[id];
            && !l.state.Released?
            && (l.state.Leased? ==> l.txHash.None?)
            && (l.state.Submitted? || l.state.Failed? || l.state.ManualReview? ==> l.txHash.Some?)
            && (l.tokenId.Some? <==> l.state.Confirmed?)
            && (l.state.Confirmed? ==> l.tokenId == Some(l.labelHash) && exists i :: ProvenBy(s, l, i))
            && (l.state.Failed? ==> exists i :: RevertedBy(s, l, i))
  {
    ReachableStays(p, s);
    assert Bound(s, s.store.leases[id]);
  }

  // ---- the indexes ----

  // In every reachable state a label entry is the very lease its request entry holds, so the defensive
  // second loop of cleanup, run at any cutoff, finds nothing to remove.
  lemma SecondCleanupLoopIsIdle(p: Policy, s: State, cutoff: int)
    requires Reachable(p, s)
    ensures forall l <- s.store.byLabel :: Retained(s.store, s.store.byLabel[l])
    ensures Coherent(s.store) && Coherent(SweepRequests(s.store, cutoff))
    ensures SweepLabels(SweepRequests(s.store, cutoff), cutoff) == SweepRequests(s.store, cutoff)
  {
    ReachableStays(p, s);
    SecondLoopRemovesNothing(s.store, cutoff);
  }

  // A lease whose request is still retained leaves the label index only confirmed or expired, and LeaseHistory
  // keeps it so.
  lemma DisplacedIsOver(p: Policy, s: State, id: Hash)
    requires Reachable(p, s) && Retained(s.store, id) && !Indexed(s.store, id)
    ensures s.store.leases[id].state.Confirmed? || s.store.leases[id].state.Expired?
  {
    ReachableStays(p, s);
    assert Bound(s, s.store.leases[id]);
  }

  // ---- idempotency ----

  // While a request is retained, all its returns are one permit with one signature.
  lemma ReturnsAgree(p: Policy, s: State, a: Issued, b: Issued)
    requires Reachable(p, s) && a in s.issued && b in s.issued
    ensures a.permit.permitId in s.store.leases && s.store.leases[a.permit.permitId].permit == a.permit
    ensures a.intent.requester == b.intent.requester && a.intent.requestId == b.intent.requestId
            && Retained(s.store, a.permit.permitId) && Retained(s.store, b.permit.permitId)
            ==> a.permit == b.permit && a.signature == b.signature
  {
    ReachableStays(p, s);
    assert IssuedIsStored(s, a) && IssuedIsStored(s, b);
  }

  // A permit meets the SDK window at the second it is returned exactly when it has not ended by then: the
  // call compares its end with issuanceNow only, where it always meets the window.
  lemma ReturnedInWindow(p: Policy, s: State, r: Issued)
    requires Reachable(p, s) && r in s.issued
    ensures r.issuanceNow <= r.returnedAt <= s.clock
    ensures MeetsWindow(r.permit, Seconds(r.issuanceNow))
    ensures MeetsWindow(r.permit, Seconds(r.returnedAt)) <==> Seconds(r.returnedAt) <= r.permit.validUntil
  {
    ReachableStays(p, s);
    assert IssuedIsStored(s, r);
    SecondsMonotone(r.issuanceNow, r.returnedAt);
  }
}

// What each operation of the lease store answers and writes, in terms of lease states, times and the two
// indexes (apps/permit-issuer/src/domain.ts:181-277).
module LeaseAnswers {
  import opened Options
  import opened Permits
  import opened Leases

  // ---- who keeps whom out ----

  // A submitted or reviewed lease keeps others out for good, a leased or failed one until its expiry.
  predicate KeepsOut(l: LeaseView, now: int) {
    match l.state
    case Submitted => true
    case ManualReview => true
    case Leased => now < l.expiresAt
    case Failed => now < l.expiresAt
    case Confirmed => false
    case Expired => false
    case Released => false
  }

  // A lease in the label index, of this requester or for this label, that keeps others out.
  ghost predicate StandsInTheWay(s: Store, requester: Address, labelHash: Hash, now: int, id: Hash) {
    && id in s.leases && (exists l <- s.byLabel :: s.byLabel[l] == id)
    && (s.leases[id].requester == requester || s.leases[id].labelHash == labelHash) && KeepsOut(s.leases[id], now)
  }

  lemma WayIsIndexed(s: Store, c: LeaseView, now: int, id: Hash)
    requires Filed(s)
    ensures StandsInTheWay(s, c.requester, c.labelHash, now, id) <==>
            && Indexed(s, id) && Blocks(s.leases[id], now)
            && (s.leases[id].requester == c.requester || s.leases[id].labelHash == c.labelHash)
  {
    if Indexed(s, id) { assert s.leases[id].labelHash in s.byLabel; }
  }

  // Every call has one of four answers, and the indexes decide which. A request that is there is answered by
  // its fingerprint alone, however old it is; a new one waits for whoever stands in the way.
  lemma AcquireAnswers(s: Store, c: LeaseView, now: int)
    requires Coherent(s)
    ensures var r := AcquireLease(s, c, now).1;
            var key := (c.requester, c.requestId);
            var known := key in s.byRequest;
            var same := known && s.leases[s.byRequest[key]].fingerprint == c.fingerprint;
            var barred := exists id :: StandsInTheWay(s, c.requester, c.labelHash, now, id);
            && (r.Idempotent? <==> same) && (same ==> r.permitId == s.byRequest[key])
            && (r.IdempotencyConflict? <==> known && !same)
            && (r.Conflict? <==> !known && barred)
            && (r.Acquired? <==> !known && !barred) && (r.Acquired? ==> r.permitId == c.permitId)
  {
    var r := AcquireLease(s, c, now).1;
    AcquireDecides(s, c, now);
    if exists id :: StandsInTheWay(s, c.requester, c.labelHash, now, id) {
      var id :| StandsInTheWay(s, c.requester, c.labelHash, now, id);
      WayIsIndexed(s, c, now, id);
    }
    if r.Conflict? {
      var id :| Indexed(s, id) && Blocks(s.leases[id], now)
                && (s.leases[id].requester == c.requester || s.leases[id].labelHash == c.labelHash);
      WayIsIndexed(s, c, now, id);
    }
  }

  // The lease of label l belongs to this requester and keeps others out.
  predicate OwnBar(s: Store, l: Hash, requester: Address, now: int) {
    && l in s.byLabel && s.byLabel[l] in s.leases
    && s.leases[s.byLabel[l]].requester == requester && KeepsOut(s.leases[s.byLabel[l]], now)
  }

  // Position k is the first in the insertion order with such a lease; past the end when there is none.
  ghost predicate FirstOwnBar(s: Store, order: seq<Hash>, requester: Address, now: int, k: nat) {
    && k <= |order| && (k < |order| ==> OwnBar(s, order[k], requester, now))
    && forall j | 0 <= j < k :: !OwnBar(s, order[j], requester, now)
  }

  lemma {:induction false} FirstBlockingIsFirst(s: Store, order: seq<Hash>, requester: Address, now: int)
    returns (k: nat)
    requires Pointing(s) && forall x <- order :: x in s.byLabel
    ensures FirstOwnBar(s, order, requester, now, k)
    ensures FirstBlocking(s, order, requester, now) == if k < |order| then Some(s.byLabel[order[k]]) else None
  {
    k := 0;
    if order != [] && !OwnBar(s, order[0], requester, now) {
      var rest := FirstBlockingIsFirst(s, order[1..], requester, now);
      k := rest + 1;
    }
  }

  // A conflict names the expiry of the requester's own first bar, and of the label's lease when there is none.
  lemma ConflictNames(s: Store, c: LeaseView, now: int) returns (k: nat)
    requires Coherent(s) && AcquireLease(s, c, now).1.Conflict?
    ensures FirstOwnBar(s, s.labelOrder, c.requester, now, k)
    ensures var l := if k < |s.labelOrder| then s.labelOrder[k] else c.labelHash;
            l in s.byLabel && AcquireLease(s, c, now).1 == Conflict(s.leases[s.byLabel[l]].expiresAt)
  {
    k := FirstBlockingIsFirst(s, s.labelOrder, c.requester, now);
    assert k < |s.labelOrder| ==> s.labelOrder[k] in s.labelOrder;
  }

  // ---- what an acquisition writes ----

  // The fields that no operation assigns.
  predicate SameLease(a: LeaseView, b: LeaseView) {
    && a.labelHash == b.labelHash && a.requester == b.requester && a.requestId == b.requestId
    && a.permitId == b.permitId && a.fingerprint == b.fingerprint && a.permit == b.permit && a.expiresAt == b.expiresAt
  }

  // The lease that loses its label is left expired when it was leased or failed, and as it was otherwise.
  lemma AcquireWrites(s: Store, c: LeaseView, now: int)
    requires Coherent(s) && c.permitId !in s.leases && AcquireLease(s, c, now).1.Acquired?
    ensures var s' := AcquireLease(s, c, now).0;
            && s'.byLabel == s.byLabel[c.labelHash := c.permitId]
            && s'.byRequest == s.byRequest[(c.requester, c.requestId) := c.permitId] && s'.signed == s.signed
            && s'.labelOrder == (if c.labelHash in s.byLabel then s.labelOrder else s.labelOrder + [c.labelHash])
            && s'.leases.Keys == s.leases.Keys + {c.permitId} && s'.leases[c.permitId] == c
    ensures var s' := AcquireLease(s, c, now).0;
            forall id <- s.leases ::
              && SameLease(s.leases[id], s'.leases[id])
              && s'.leases[id].txHash == s.leases[id].txHash && s'.leases[id].tokenId == s.leases[id].tokenId
              && s'.leases[id].state ==
                 if c.labelHash in s.byLabel && s.byLabel[c.labelHash] == id
                    && (s.leases[id].state.Leased? || s.leases[id].state.Failed?)
                 then Expired else s.leases[id].state
  {
    AcquireDecides(s, c, now);
    if c.labelHash in s.byLabel { assert Indexed(s, s.byLabel[c.labelHash]); }
  }

  // ---- what a mark answers and writes ----

  // The lease is the only thing that may differ, and of it the state, transaction and token.
  ghost predicate OnlyMarks(s: Store, s': Store, id: Hash) {
    && s'.byLabel == s.byLabel && s'.labelOrder == s.labelOrder && s'.byRequest == s.byRequest && s'.signed == s.signed
    && s'.leases.Keys == s.leases.Keys
    && (forall other <- s.leases | other != id :: s'.leases[other] == s.leases[other])
    && (id in s.leases ==> SameLease(s.leases[id], s'.leases[id]))
  }

  predicate Has(l: LeaseView, state: LeaseState, txHash: Option<Hash>, tokenId: Option<nat>) {
    l.state == state && l.txHash == txHash && l.tokenId == tokenId
  }

  ghost predicate InLabelIndex(s: Store, id: Hash) {
    exists l <- s.byLabel :: s.byLabel[l] == id
  }

  lemma FoundIsIndexed(s: Store, id: Hash)
    requires Filed(s)
    ensures InLabelIndex(s, id) <==> Indexed(s, id)
  {
    if Indexed(s, id) { assert s.leases[id].labelHash in s.byLabel; }
  }

  lemma SubmittedMarks(s: Store, id: Hash, tx: Hash)
    requires Filed(s)
    ensures var (s', ok) := MarkSubmitted(s, id, tx);
            && OnlyMarks(s, s', id) && (!ok ==> s' == s)
            && (ok <==> && InLabelIndex(s, id)
                        && (s.leases[id].state == Leased
                            || Has(s.leases[id], Submitted, Some(tx), s.leases[id].tokenId)))
            && (ok ==> id in s'.leases && Has(s'.leases[id], Submitted, Some(tx), s.leases[id].tokenId))
  {
    FoundIsIndexed(s, id);
  }

  lemma ConfirmedMarks(s: Store, id: Hash, tx: Hash, tokenId: nat)
    requires Filed(s)
    ensures var (s', ok) := MarkConfirmed(s, id, tx, tokenId);
            && OnlyMarks(s, s', id) && (!ok ==> s' == s)
            && (ok <==> && InLabelIndex(s, id)
                        && (Has(s.leases[id], Confirmed, Some(tx), Some(tokenId))
                            || Has(s.leases[id], Submitted, Some(tx), s.leases[id].tokenId)))
            && (ok ==> id in s'.leases && Has(s'.leases[id], Confirmed, Some(tx), Some(tokenId)))
  {
    FoundIsIndexed(s, id);
  }

  lemma ClosedMarks(s: Store, id: Hash, tx: Hash, closing: LeaseState)
    requires Filed(s) && id in s.leases
    ensures var (s', ok) := MarkClosed(s, id, tx, closing);
            && OnlyMarks(s, s', id) && (!ok ==> s' == s)
            && (ok <==> s.leases[id].txHash == Some(tx)
                        && (s.leases[id].state == closing || s.leases[id].state == Submitted))
            && (ok ==> Has(s'.leases[id], closing, Some(tx), s.leases[id].tokenId))
  {
  }

  lemma ReleaseMarks(s: Store, id: Hash, requester: Address)
    requires Filed(s)
    ensures var (s', ok) := Release(s, id, requester);
            && OnlyMarks(s, s', id) && (!ok ==> s' == s)
            && (ok <==> InLabelIndex(s, id) && s.leases[id].requester == requester && s.leases[id].state == Leased)
            && (ok ==> id in s'.leases && Has(s'.leases[id], Released, s.leases[id].txHash, s.leases[id].tokenId))
  {
    FoundIsIndexed(s, id);
  }

  // A signature is stored once: the same one again is accepted, another one is refused without effect.
  lemma SignatureIsImmutable(s: Store, id: Hash, permit: Permit, signature: Hash)
    ensures var (s', ok) := SaveSignedPermit(s, id, permit, signature);
            && (ok <==> (id in s.signed ==> s.signed[id].signature == signature))
            && (ok ==> GetSignedPermit(s', id) == Some(SignedPermit(permit, signature)))
            && (forall other | other != id || !ok :: GetSignedPermit(s', other) == GetSignedPermit(s, other))
            && s'.(signed := s.signed) == s
  {
  }

  // ---- lists ----

  // r keeps exactly the positions of order that p marks, in order; label l is kept as f[l].
  ghost predicate IsSelection(order: seq<Hash>, f: map<Hash, Hash>, p: set<Hash>, r: seq<Hash>, ks: seq<nat>)
    requires forall l <- order :: l in f
  {
    && |ks| == |r| && (forall i, j | 0 <= i < j < |ks| :: ks[i] < ks[j])
    && (forall i | 0 <= i < |ks| :: ks[i] < |order| && f[order[ks[i]]] == r[i])
    && (forall k | 0 <= k < |order| :: k in ks <==> order[k] in p)
  }

  lemma SelectionSkips(order: seq<Hash>, f: map<Hash, Hash>, p: set<Hash>, r: seq<Hash>, ks: seq<nat>, l: Hash)
    requires (forall x <- order :: x in f) && l in f && l !in p && IsSelection(order, f, p, r, ks)
    ensures (forall x <- order + [l] :: x in f) && IsSelection(order + [l], f, p, r, ks)
  {
    var n := |order|;
    assert n !in ks;
    forall k | 0 <= k < |order + [l]| ensures k in ks <==> (order + [l])[k] in p {
      if k < n { assert (order + [l])[k] == order[k]; }
    }
  }

  lemma SelectionTakes(order: seq<Hash>, f: map<Hash, Hash>, p: set<Hash>, r: seq<Hash>, ks: seq<nat>, l: Hash)
    requires (forall x <- order :: x in f) && l in f && l in p && IsSelection(order, f, p, r, ks)
    ensures (forall x <- order + [l] :: x in f) && IsSelection(order + [l], f, p, r + [f[l]], ks + [|order|])
  {
    forall k | 0 <= k < |order + [l]| ensures k in ks + [|order|] <==> (order + [l])[k] in p {
      if k < |order| { assert (order + [l])[k] == order[k]; }
    }
  }

  function SubmittedLabels(s: Store): set<Hash>
    requires Pointing(s)
  {
    set l | l in s.byLabel && s.leases[s.byLabel[l]].state == Submitted
  }

  // The list that reconcile works on: each submitted lease of the label index, in insertion order.
  lemma {:induction false} SubmittedInOrder(s: Store, order: seq<Hash>) returns (ks: seq<nat>)
    requires Pointing(s) && forall l <- order :: l in s.byLabel
    ensures IsSelection(order, s.byLabel, SubmittedLabels(s), SubmittedIn(s, order), ks)
  {
    ks := [];
    if order != [] {
      var front, l := order[..|order| - 1], order[|order| - 1];
      ks := SubmittedInOrder(s, front);
      assert order == front + [l];
      if l in SubmittedLabels(s) {
        SelectionTakes(front, s.byLabel, SubmittedLabels(s), SubmittedIn(s, front), ks, l);
        ks := ks + [|front|];
      } else {
        SelectionSkips(front, s.byLabel, SubmittedLabels(s), SubmittedIn(s, front), ks, l);
      }
    }
  }

  // ---- cleanup ----

  // A cleanup drops exactly the requests whose lease has expired by the cutoff, with their label entry and
  // their signature; a signature without a request stays. The leases themselves are not touched.
  lemma CleanupDrops(s: Store, cutoff: int)
    requires Coherent(s)
    ensures var s' := Cleanup(s, cutoff);
            && s'.leases == s.leases
            && (forall k :: k in s'.byRequest <==> k in s.byRequest && cutoff < s.leases[s.byRequest[k]].expiresAt)
            && (forall k <- s'.byRequest :: s'.byRequest[k] == s.byRequest[k])
            && (forall l :: l in s'.byLabel <==> l in s.byLabel && cutoff < s.leases[s.byLabel[l]].expiresAt)
            && (forall l <- s'.byLabel :: s'.byLabel[l] == s.byLabel[l])
            && (forall id :: id in s'.signed <==>
                             id in s.signed && !(exists k <- s.byRequest :: s.byRequest[k] == id
                                                                            && s.leases[id].expiresAt <= cutoff))
            && (forall id <- s'.signed :: s'.signed[id] == s.signed[id])
  {
    CleanupIsOneSweep(s, cutoff);
    var s' := SweepRequests(s, cutoff);
    forall id <- s.signed
      ensures (exists k <- s.byRequest :: s.byRequest[k] == id && s.leases[id].expiresAt <= cutoff) <==>
              Retained(s, id) && Stale(s, id, cutoff)
    {
      if Retained(s, id) { assert Key(s.leases[id]) in s.byRequest; }
    }
    forall l <- s.byLabel ensures l in s'.byLabel <==> cutoff < s.leases[s.byLabel[l]].expiresAt {
      assert Retained(s, s.byLabel[l]);
    }
  }

  lemma {:induction false} KeptAppends(order: seq<Hash>, labels: set<Hash>, l: Hash)
    ensures Kept(order + [l], labels) == Kept(order, labels) + if l in labels then [l] else []
  {
    if order == [] {
      assert [l][1..] == [];
    } else {
      KeptAppends(order[1..], labels, l);
      assert (order + [l])[1..] == order[1..] + [l];
    }
  }

  // The labels that stay keep their insertion order.
  lemma {:induction false} KeptInOrder(order: seq<Hash>, f: map<Hash, Hash>, labels: set<Hash>) returns (ks: seq<nat>)
    requires forall l <- order :: l in f && f[l] == l
    ensures IsSelection(order, f, labels, Kept(order, labels), ks)
  {
    ks := [];
    if order != [] {
      var front, l := order[..|order| - 1], order[|order| - 1];
      ks := KeptInOrder(front, f, labels);
      assert order == front + [l];
      KeptAppends(front, labels, l);
      if l in labels {
        SelectionTakes(front, f, labels, Kept(front, labels), ks, l);
        ks := ks + [|front|];
      } else {
        SelectionSkips(front, f, labels, Kept(front, labels), ks, l);
      }
    }
  }

  // After a cleanup the labels that stay are in the order they were in.
  lemma CleanupKeepsOrder(s: Store, cutoff: int) returns (ks: seq<nat>)
    requires Coherent(s)
    ensures IsSelection(s.labelOrder, map l | l in s.byLabel :: l, Cleanup(s, cutoff).byLabel.Keys,
                        Cleanup(s, cutoff).labelOrder, ks)
  {
    CleanupIsOneSweep(s, cutoff);
    ks := KeptInOrder(s.labelOrder, map l | l in s.byLabel :: l, SweepRequests(s, cutoff).byLabel.Keys);
  }
}

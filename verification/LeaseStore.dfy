// MemoryLeaseStore of the permit issuer (apps/permit-issuer/src/domain.ts): maps of shared lease objects,
// updated in place. Every method is proved against the store values of module Leases.
module LeaseStore {
  import opened Options
  import opened Permits
  import opened Leases
  import opened LeaseSweeps
  import RateLimits

  class Lease {
    const labelHash: Hash
    const requester: Address
    const requestId: string
    const permitId: Hash
    const fingerprint: Hash
    const permit: Permit
    const expiresAt: int
    var state: LeaseState
    var txHash: Option<Hash>
    var tokenId: Option<nat>

    constructor (labelHash: Hash, requester: Address, requestId: string, permitId: Hash, fingerprint: Hash,
                 permit: Permit,
                 expiresAt: int)
      ensures View() == LeaseView(labelHash, requester, requestId, permitId, fingerprint, Leased, permit, expiresAt,
                                  None, None)
    {
      this.labelHash := labelHash;
      this.requester := requester;
      this.requestId := requestId;
      this.permitId := permitId;
      this.fingerprint := fingerprint;
      this.permit := permit;
      this.expiresAt := expiresAt;
      state, txHash, tokenId := Leased, None, None;
    }

    function View(): LeaseView
      reads this
    {
      LeaseView(labelHash, requester, requestId, permitId, fingerprint, state, permit, expiresAt, txHash, tokenId)
    }
  }

  datatype Outcome =
    | LeaseAcquired(lease: Lease)
    | LeaseIdempotent(lease: Lease)
    | LeaseConflict(expiresAt: int)
    | LeaseIdempotencyConflict

  function Abstract(o: Outcome): AcquireResult {
    match o
    case LeaseAcquired(l) => Acquired(l.permitId)
    case LeaseIdempotent(l) => Idempotent(l.permitId)
    case LeaseConflict(at) => Conflict(at)
    case LeaseIdempotencyConflict => IdempotencyConflict
  }

  function Ids(leases: seq<Lease>): seq<Hash> {
    seq(|leases|, i requires 0 <= i < |leases| => leases[i].permitId)
  }

  // The keys of a map, each once or more, in some order.
  method Listed<K(==)>(keys: set<K>) returns (xs: seq<K>)
    ensures Elements(xs) == keys
  {
    xs := [];
    var pending := keys;
    while pending != {}
      invariant pending + Elements(xs) == keys
    {
      var k :| k in pending;
      ElementsGrow(xs, k);
      pending, xs := pending - {k}, xs + [k];
    }
  }

  class MemoryLeaseStore {
    var leasesByLabel: map<Hash, Lease>
    var labelOrder: seq<Hash> // insertion order of leasesByLabel
    var leasesByRequest: map<RequestKey, Lease>
    var signed: map<Hash, SignedPermit>
    var rateLimits: RateLimits.Table
    ghost var Repr: set<Lease> // every lease object ever acquired

    ghost var view: Store // the value of the store, kept beside the maps

    ghost predicate Valid()
      reads this, Repr
    {
      && (forall a <- Repr :: a.permitId in view.leases && view.leases[a.permitId] == a.View())
      && (forall a, b :: a in Repr && b in Repr && a.permitId == b.permitId ==> a == b)
      && (forall id <- view.leases :: view.leases[id].permitId == id)
      && view.byLabel.Keys == leasesByLabel.Keys
      && (forall l <- leasesByLabel :: leasesByLabel[l] in Repr && leasesByLabel[l].labelHash == l
                                       && view.byLabel[l] == leasesByLabel[l].permitId)
      && view.byRequest.Keys == leasesByRequest.Keys
      && (forall k <- leasesByRequest :: leasesByRequest[k] in Repr
                                         && (leasesByRequest[k].requester, leasesByRequest[k].requestId) == k
                                         && view.byRequest[k] == leasesByRequest[k].permitId)
      && view.labelOrder == labelOrder && (forall l :: l in labelOrder <==> l in leasesByLabel)
      && view.signed == signed
    }

    lemma ViewIsFiled()
      requires Valid()
      ensures Filed(view)
    {
    }

    constructor ()
      ensures Valid() && view == EMPTY_STORE && rateLimits == map[] && Repr == {}
    {
      leasesByLabel, labelOrder, leasesByRequest, signed, rateLimits := map[], [], map[], map[], map[];
      Repr, view := {}, EMPTY_STORE;
    }

    // `[...leasesByLabel.values()].find(item => item.permitId === permitId)`
    method GetLease(permitId: Hash) returns (found: Lease?)
      requires Valid()
      ensures found != null <==> Indexed(view, permitId)
      ensures found != null ==> found in Repr && found.permitId == permitId && found.labelHash in leasesByLabel
                                && leasesByLabel[found.labelHash] == found
    {
      for i := 0 to |labelOrder|
        invariant forall j | 0 <= j < i :: leasesByLabel[labelOrder[j]].permitId != permitId
      {
        var lease := leasesByLabel[labelOrder[i]];
        if lease.permitId == permitId { return lease; }
      }
      forall l <- leasesByLabel ensures leasesByLabel[l].permitId != permitId { assert l in labelOrder; }
      return null;
    }

    // The first lease of the requester, in label order, that blocks now.
    method FindBlocking(requester: Address, now: int) returns (found: Lease?)
      requires Valid()
      ensures Filed(view)
      ensures var f := FirstBlocking(view, labelOrder, requester, now);
              if found == null then f.None? else f == Some(found.permitId) && found in Repr
    {
      ViewIsFiled();
      assert labelOrder[0..] == labelOrder;
      for i := 0 to |labelOrder|
        invariant FirstBlocking(view, labelOrder[i..], requester, now) ==
                  FirstBlocking(view, labelOrder, requester, now)
      {
        assert labelOrder[i..][0] == labelOrder[i] && labelOrder[i..][1..] == labelOrder[i + 1..];
        var lease := leasesByLabel[labelOrder[i]];
        if lease.requester == requester && Blocks(lease.View(), now) { return lease; }
      }
      return null;
    }

    // Assigning the fields of a shared lease object shows through both indexes.
    method Assign(lease: Lease, state: LeaseState, txHash: Option<Hash>, tokenId: Option<nat>)
      requires Valid() && lease in Repr
      modifies lease, this`view
      ensures Valid()
      ensures view == old(view).(leases := old(view).leases[
                          lease.permitId := old(lease.View()).(state := state, txHash := txHash, tokenId := tokenId)])
    {
      lease.state, lease.txHash, lease.tokenId := state, txHash, tokenId;
      view := view.(leases := view.leases[lease.permitId := lease.View()]);
    }

    ghost method Admit(candidate: Lease)
      requires Valid() && candidate.permitId !in view.leases
      modifies this`Repr, this`view
      ensures Valid() && view == old(view).(leases := old(view).leases[candidate.permitId := candidate.View()])
      ensures Repr == old(Repr) + {candidate}
    {
      Repr := Repr + {candidate};
      view := view.(leases := view.leases[candidate.permitId := candidate.View()]);
    }

    method SetLabel(lease: Lease)
      requires Valid() && lease in Repr
      modifies this`leasesByLabel, this`labelOrder, this`view
      ensures Valid()
      ensures view == old(view).(byLabel := old(view).byLabel[lease.labelHash := lease.permitId],
                                     labelOrder := Touch(old(labelOrder), lease.labelHash))
    {
      TouchHas(labelOrder, lease.labelHash);
      leasesByLabel, labelOrder := leasesByLabel[lease.labelHash := lease], Touch(labelOrder, lease.labelHash);
      view := view.(byLabel := view.byLabel[lease.labelHash := lease.permitId], labelOrder := labelOrder);
    }

    method SetRequest(lease: Lease)
      requires Valid() && lease in Repr
      modifies this`leasesByRequest, this`view
      ensures Valid()
      ensures view == old(view).(byRequest := old(view).byRequest[Key(lease.View()) := lease.permitId])
    {
      leasesByRequest := leasesByRequest[(lease.requester, lease.requestId) := lease];
      view := view.(byRequest := view.byRequest[(lease.requester, lease.requestId) := lease.permitId]);
    }

    // Both Map.set calls of an acquisition.
    method PlaceLease(candidate: Lease)
      requires Valid() && candidate.permitId !in view.leases
      modifies this`leasesByLabel, this`labelOrder, this`leasesByRequest, this`Repr, this`view
      ensures Valid() && view == Place(old(view), candidate.View())
      ensures Repr == old(Repr) + {candidate}
    {
      Admit(candidate);
      SetLabel(candidate);
      SetRequest(candidate);
    }

    // A lease whose reservation is over is marked expired before its label entry is replaced.
    method Displace(l: Hash)
      requires Valid()
      modifies Repr, this`view
      ensures Valid() && Filed(old(view))
      ensures view == if l in old(view).byLabel && Exclusive(old(view).leases[old(view).byLabel[l]].state)
                      then SetState(old(view), old(view).byLabel[l], Expired) else old(view)
    {
      ViewIsFiled();
      if l in leasesByLabel {
        var current := leasesByLabel[l];
        if Exclusive(current.state) { Assign(current, Expired, current.txHash, current.tokenId); }
      }
    }

    method AcquireLabel(candidate: Lease, now: int) returns (outcome: Outcome)
      requires Valid() && candidate !in Repr && candidate.permitId !in view.leases && Filed(view)
      modifies this`leasesByLabel, this`labelOrder, this`leasesByRequest, this`Repr, this`view, Repr
      ensures Valid()
      ensures var (store, result) := Leases.AcquireLabel(old(view), old(candidate.View()), now);
              view == store && Abstract(outcome) == result
      ensures if outcome.LeaseAcquired? then outcome.lease == candidate && Repr == old(Repr) + {candidate}
              else Repr == old(Repr)
      ensures outcome.LeaseIdempotent? ==> outcome.lease in Repr
    {
      if candidate.labelHash in leasesByLabel {
        var current := leasesByLabel[candidate.labelHash];
        if Blocks(current.View(), now) {
          if current.requester == candidate.requester && current.fingerprint == candidate.fingerprint {
            return LeaseIdempotent(current);
          }
          return LeaseConflict(current.expiresAt);
        }
      }
      Displace(candidate.labelHash);
      PlaceLease(candidate);
      return LeaseAcquired(candidate);
    }

    // The candidate is a new object with a fresh random permit id, as issue() builds it.
    method AcquireLease(candidate: Lease, now: int) returns (outcome: Outcome)
      requires Valid() && candidate !in Repr && candidate.permitId !in view.leases
      modifies this`leasesByLabel, this`labelOrder, this`leasesByRequest, this`Repr, this`view, Repr
      ensures Valid() && Filed(old(view))
      ensures var (store, result) := Leases.AcquireLease(old(view), old(candidate.View()), now);
              view == store && Abstract(outcome) == result
      ensures if outcome.LeaseAcquired? then
                outcome.lease == candidate && Repr == old(Repr) + {candidate}
              else Repr == old(Repr)
      ensures outcome.LeaseIdempotent? ==> outcome.lease in Repr
    {
      ViewIsFiled();
      var requestKey := (candidate.requester, candidate.requestId);
      if requestKey in leasesByRequest {
        var prior := leasesByRequest[requestKey];
        if prior.fingerprint != candidate.fingerprint { return LeaseIdempotencyConflict; }
        return LeaseIdempotent(prior);
      }
      var requesterLease := FindBlocking(candidate.requester, now);
      if requesterLease != null { return LeaseConflict(requesterLease.expiresAt); }
      outcome := AcquireLabel(candidate, now);
    }

    method SaveSignedPermit(permitId: Hash, permit: Permit, signature: Hash) returns (ok: bool)
      requires Valid()
      modifies this`signed, this`view
      ensures Valid()
      ensures (view, ok) == Leases.SaveSignedPermit(old(view), permitId, permit, signature)
    {
      if permitId in signed && signed[permitId].signature != signature { return false; }
      signed := signed[permitId := SignedPermit(permit, signature)];
      view := view.(signed := signed);
      return true;
    }

    method GetSignedPermit(permitId: Hash) returns (found: Option<SignedPermit>)
      requires Valid()
      ensures found == Leases.GetSignedPermit(view, permitId)
    {
      found := if permitId in signed then Some(signed[permitId]) else None;
    }

    method ListSubmitted(limit: nat) returns (found: seq<Lease>)
      requires Valid()
      ensures Filed(view)
      ensures var all := SubmittedIn(view, labelOrder); Ids(found) == all[..if |all| < limit then |all| else limit]
      ensures forall l <- found :: l in Repr
    {
      ViewIsFiled();
      var all := [];
      for i := 0 to |labelOrder|
        invariant forall l <- all :: l in Repr
        invariant Ids(all) == SubmittedIn(view, labelOrder[..i])
      {
        assert labelOrder[..i + 1][..i] == labelOrder[..i];
        var lease := leasesByLabel[labelOrder[i]];
        if lease.state == Submitted { all := all + [lease]; }
      }
      assert labelOrder[..|labelOrder|] == labelOrder;
      found := if |all| < limit then all else all[..limit];
    }

    method MarkSubmitted(permitId: Hash, txHash: Hash) returns (ok: bool)
      requires Valid()
      modifies Repr, this`view
      ensures Valid()
      ensures (view, ok) == Leases.MarkSubmitted(old(view), permitId, txHash)
    {
      var lease := GetLease(permitId);
      if lease == null || (lease.state != Leased && !(lease.state == Submitted && lease.txHash == Some(txHash))) {
        return false;
      }
      Assign(lease, Submitted, Some(txHash), lease.tokenId);
      return true;
    }

    method MarkConfirmed(permitId: Hash, txHash: Hash, tokenId: nat) returns (ok: bool)
      requires Valid()
      modifies Repr, this`view
      ensures Valid()
      ensures (view, ok) == Leases.MarkConfirmed(old(view), permitId, txHash, tokenId)
    {
      var lease := GetLease(permitId);
      if lease != null && lease.state == Confirmed {
        return lease.txHash == Some(txHash) && lease.tokenId == Some(tokenId);
      }
      if lease == null || lease.state != Submitted || lease.txHash != Some(txHash) { return false; }
      Assign(lease, Confirmed, lease.txHash, Some(tokenId));
      return true;
    }

    method Close(lease: Lease, closing: LeaseState)
      requires Valid() && lease in Repr
      modifies lease, this`view
      ensures Valid() && lease.permitId in old(view).leases
      ensures view == SetState(old(view), lease.permitId, closing)
    {
      Assign(lease, closing, lease.txHash, lease.tokenId);
    }

    // markFailed, markManualReview and markExpired after their await of getLease: the object they hold is
    // assigned even when a cleanup has dropped it from both indexes meanwhile.
    method MarkClosed(lease: Lease?, txHash: Hash, closing: LeaseState) returns (ok: bool)
      requires Valid() && (lease != null ==> lease in Repr)
      modifies Repr, this`view
      ensures Valid() && (lease != null ==> lease.permitId in old(view).leases)
      ensures (view, ok) ==
              if lease == null then (old(view), false)
              else Leases.MarkClosed(old(view), lease.permitId, txHash, closing)
    {
      if lease == null { return false; }
      if lease.state == closing { return lease.txHash == Some(txHash); }
      if lease.state != Submitted || lease.txHash != Some(txHash) { return false; }
      Close(lease, closing);
      return true;
    }

    method Release(permitId: Hash, requester: Address) returns (ok: bool)
      requires Valid()
      modifies Repr, this`view
      ensures Valid()
      ensures (view, ok) == Leases.Release(old(view), permitId, requester)
    {
      var lease := GetLease(permitId);
      if lease == null || lease.requester != requester || lease.state != Leased { return false; }
      Assign(lease, Released, lease.txHash, lease.tokenId);
      return true;
    }

    method ConsumeRateLimit(key: string, now: int, windowSeconds: nat, limit: nat) returns (ok: bool)
      requires Valid() && windowSeconds > 0
      modifies this`rateLimits
      ensures Valid() && view == old(view)
      ensures (rateLimits, ok) == RateLimits.Consume(old(rateLimits), key, now, windowSeconds * 1000, limit)
    {
      var windowMs := windowSeconds * 1000;
      var bucket := now / windowMs;
      var count := if key in rateLimits && rateLimits[key].bucket == bucket then rateLimits[key].count + 1 else 1;
      rateLimits := rateLimits[key := RateLimits.Bucket(bucket, count, (bucket + 1) * windowMs)];
      ok := count <= limit;
    }

    // Map.delete on the label index.
    method DeleteLabel(l: Hash)
      requires Valid()
      modifies this`leasesByLabel, this`labelOrder, this`view
      ensures Valid() && view == DropLabel(old(view), l)
      ensures leasesByLabel == Without(old(leasesByLabel), l)
    {
      leasesByLabel := Without(leasesByLabel, l);
      KeptHasAll(labelOrder, leasesByLabel.Keys);
      labelOrder := Kept(labelOrder, leasesByLabel.Keys);
      view := DropLabel(view, l);
      assert leasesByLabel.Keys == view.byLabel.Keys;
    }

    // Map.delete on the request index and on the signatures.
    method DeleteRequest(key: RequestKey, permitId: Hash)
      requires Valid()
      modifies this`leasesByRequest, this`signed, this`view
      ensures Valid()
      ensures view == old(view).(byRequest := Without(old(view).byRequest, key),
                                 signed := Without(old(view).signed, permitId))
      ensures leasesByRequest == Without(old(leasesByRequest), key)
    {
      leasesByRequest, signed := Without(leasesByRequest, key), Without(signed, permitId);
      view := view.(byRequest := Without(view.byRequest, key), signed := signed);
    }

    method DeleteSigned(permitId: Hash)
      requires Valid()
      modifies this`signed, this`view
      ensures Valid() && view == old(view).(signed := Without(old(view).signed, permitId))
    {
      signed := Without(signed, permitId);
      view := view.(signed := signed);
    }

    // One turn of the first cleanup loop.
    method VisitRequest(key: RequestKey, cutoff: int)
      requires Valid()
      modifies this`leasesByLabel, this`labelOrder, this`leasesByRequest, this`signed, this`view
      ensures Valid() && view == LeaseSweeps.VisitRequest(old(view), cutoff, key)
    {
      if key !in leasesByRequest { return; }
      var lease := leasesByRequest[key];
      if lease.expiresAt > cutoff { return; }
      DeleteRequest(key, lease.permitId);
      if lease.labelHash !in leasesByLabel || leasesByLabel[lease.labelHash].permitId != lease.permitId { return; }
      DeleteLabel(lease.labelHash);
    }

    // One turn of the second cleanup loop.
    method VisitLabel(l: Hash, cutoff: int)
      requires Valid()
      modifies this`leasesByLabel, this`labelOrder, this`signed, this`view
      ensures Valid() && view == LeaseSweeps.VisitLabel(old(view), cutoff, l)
    {
      if l !in leasesByLabel { return; }
      var lease := leasesByLabel[l];
      if lease.expiresAt > cutoff { return; }
      DeleteSigned(lease.permitId);
      DeleteLabel(l);
    }

    method VisitRequestIndex(cutoff: int) returns (ghost keys: seq<RequestKey>)
      requires Valid()
      modifies this`leasesByLabel, this`labelOrder, this`leasesByRequest, this`signed, this`view
      ensures Valid() && Elements(keys) == old(view).byRequest.Keys && view == VisitRequests(old(view), cutoff, keys)
    {
      var order := Listed(leasesByRequest.Keys);
      for i := 0 to |order|
        invariant Valid() && view == VisitRequests(old(view), cutoff, order[..i])
      {
        assert order[..i + 1][..i] == order[..i];
        VisitRequest(order[i], cutoff);
      }
      assert order[..|order|] == order;
      keys := order;
    }

    method VisitLabelIndex(cutoff: int) returns (ghost labels: seq<Hash>)
      requires Valid()
      modifies this`leasesByLabel, this`labelOrder, this`signed, this`view
      ensures Valid() && Elements(labels) == old(view).byLabel.Keys && view == VisitLabels(old(view), cutoff, labels)
    {
      var order := labelOrder;
      assert Elements(order) == leasesByLabel.Keys;
      for i := 0 to |order|
        invariant Valid() && view == VisitLabels(old(view), cutoff, order[..i])
      {
        assert order[..i + 1][..i] == order[..i];
        VisitLabel(order[i], cutoff);
      }
      assert order[..|order|] == order;
      labels := order;
    }

    // The third cleanup loop.
    method ForgetRateLimits(now: int)
      requires Valid()
      modifies this`rateLimits
      ensures Valid() && rateLimits == RateLimits.Forget(old(rateLimits), now)
    {
      rateLimits := RateLimits.Forget(rateLimits, now);
    }

    method SweepIndexes(cutoff: int) returns (ghost keys: seq<RequestKey>, ghost labels: seq<Hash>)
      requires Valid()
      modifies this`leasesByLabel, this`labelOrder, this`leasesByRequest, this`signed, this`view
      ensures Valid() && CleanedInOrder(old(view), view, cutoff, keys, labels)
    {
      keys := VisitRequestIndex(cutoff);
      labels := VisitLabelIndex(cutoff);
    }

    // cleanupExpiredState without the challenges; it throws on a negative retention. The entries may come in
    // any order: AnyOrderIsCleanup shows it to be irrelevant.
    method CleanupExpiredState(now: int, retentionMs: int)
      returns (ok: bool, cutoff: int, ghost keys: seq<RequestKey>, ghost labels: seq<Hash>)
      requires Valid()
      modifies this`leasesByLabel, this`labelOrder, this`leasesByRequest, this`signed, this`rateLimits, this`view
      ensures Valid()
      ensures (ok <==> retentionMs >= 0) && cutoff == now - retentionMs
      ensures !ok ==> view == old(view) && rateLimits == old(rateLimits)
      ensures ok ==> CleanedInOrder(old(view), view, cutoff, keys, labels)
      ensures ok ==> rateLimits == RateLimits.Forget(old(rateLimits), now)
    {
      ok, cutoff, keys, labels := retentionMs >= 0, now - retentionMs, [], [];
      if ok {
        keys, labels := SweepIndexes(cutoff);
        ForgetRateLimits(now);
      }
    }
  }
}

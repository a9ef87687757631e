// The lease store of the permit issuer as values (apps/permit-issuer/src/domain.ts).
//
// Two indexes hold the same mutable lease objects, so a store value separates the objects (`leases`,
// every lease ever acquired, by permit id) from the indexes that point to them. Permit ids stand for
// object identity: they are 32 random bytes, assumed never to repeat.
module Leases {
  import opened Options
  import opened Permits

  type RequestKey = (Address, string)

  datatype LeaseState = Leased | Submitted | Confirmed | Expired | Released | Failed | ManualReview

  datatype LeaseView = LeaseView(
    labelHash: Hash,
    requester: Address,
    requestId: string,
    permitId: Hash,
    fingerprint: Hash,
    state: LeaseState,
    permit: Permit,
    expiresAt: int,
    txHash: Option<Hash>,
    tokenId: Option<nat>)

  datatype SignedPermit = SignedPermit(permit: Permit, signature: Hash)

  datatype Store = Store(
    leases: map<Hash, LeaseView>,
    byLabel: map<Hash, Hash>,
    labelOrder: seq<Hash>,
    byRequest: map<RequestKey, Hash>,
    signed: map<Hash, SignedPermit>)

  datatype AcquireResult =
    | Acquired(permitId: Hash)
    | Idempotent(permitId: Hash)
    | Conflict(expiresAt: int)
    | IdempotencyConflict

  const EMPTY_STORE := Store(map[], map[], [], map[], map[])

  function Key(l: LeaseView): RequestKey {
    (l.requester, l.requestId)
  }

  predicate Exclusive(state: LeaseState) {
    state.Leased? || state.Submitted? || state.Failed? || state.ManualReview?
  }

  // A lease that keeps others out at time `now`.
  predicate Blocks(l: LeaseView, now: int) {
    Exclusive(l.state) && (l.state.Submitted? || l.state.ManualReview? || l.expiresAt > now)
  }

  predicate Indexed(s: Store, id: Hash) {
    id in s.leases && s.leases[id].labelHash in s.byLabel && s.byLabel[s.leases[id].labelHash] == id
  }

  predicate Retained(s: Store, id: Hash) {
    id in s.leases && Key(s.leases[id]) in s.byRequest && s.byRequest[Key(s.leases[id])] == id
  }

  // Index entries point at leases filed under their own keys.
  ghost predicate Filed(s: Store) {
    && (forall id <- s.leases :: s.leases[id].permitId == id)
    && (forall l <- s.byLabel :: s.byLabel[l] in s.leases && s.leases[s.byLabel[l]].labelHash == l)
    && (forall k <- s.byRequest :: s.byRequest[k] in s.leases && Key(s.leases[s.byRequest[k]]) == k)
    && (forall l :: l in s.labelOrder <==> l in s.byLabel)
  }

  // What every store operation keeps besides: a lease in the label index is the very object the request
  // index holds.
  ghost predicate Coherent(s: Store) {
    Filed(s) && forall l <- s.byLabel :: Retained(s, s.byLabel[l])
  }

  ghost predicate Pointing(s: Store) {
    forall l <- s.byLabel :: s.byLabel[l] in s.leases
  }

  // The fields of a lease that no operation assigns.
  predicate SameIdentity(a: LeaseView, b: LeaseView) {
    b == a.(state := b.state, txHash := b.txHash, tokenId := b.tokenId)
  }

  ghost predicate SameIndexes(s: Store, s': Store) {
    && s'.byLabel == s.byLabel && s'.labelOrder == s.labelOrder && s'.byRequest == s.byRequest
    && s'.leases.Keys == s.leases.Keys
    && forall i <- s.leases :: SameIdentity(s.leases[i], s'.leases[i])
  }

  // `[...leasesByLabel.values()].find(...)` over the remaining insertion order.
  function FirstBlocking(s: Store, order: seq<Hash>, requester: Address, now: int): (r: Option<Hash>)
    requires Pointing(s) && forall l <- order :: l in s.byLabel
    ensures r.Some? ==> r.value in s.leases && s.leases[r.value].requester == requester
                        && Blocks(s.leases[r.value], now)
  {
    if order == [] then None
    else
      var id := s.byLabel[order[0]];
      if s.leases[id].requester == requester && Blocks(s.leases[id], now) then Some(id)
      else FirstBlocking(s, order[1..], requester, now)
  }

  // Map.set keeps the position of a key that is present and appends one that is not.
  function Touch(order: seq<Hash>, l: Hash): seq<Hash> {
    if l in order then order else order + [l]
  }

  lemma TouchHas(order: seq<Hash>, l: Hash)
    ensures forall x :: x in Touch(order, l) <==> x in order || x == l
  {
  }

  function Place(s: Store, c: LeaseView): Store {
    s.(leases := s.leases[c.permitId := c],
       byLabel := s.byLabel[c.labelHash := c.permitId],
       labelOrder := Touch(s.labelOrder, c.labelHash),
       byRequest := s.byRequest[Key(c) := c.permitId])
  }

  function SetState(s: Store, id: Hash, state: LeaseState): Store
    requires id in s.leases
  {
    s.(leases := s.leases[id := s.leases[id].(state := state)])
  }

  // The part of acquireLease that looks at the label.
  function AcquireLabel(s: Store, c: LeaseView, now: int): (r: (Store, AcquireResult))
    requires Filed(s)
    ensures if r.1.Acquired? then r.1.permitId == c.permitId else r.0 == s
  {
    if c.labelHash !in s.byLabel then (Place(s, c), Acquired(c.permitId))
    else
      var current := s.byLabel[c.labelHash];
      if Blocks(s.leases[current], now) then
        if s.leases[current].requester == c.requester && s.leases[current].fingerprint == c.fingerprint
        then (s, Idempotent(current))
        else (s, Conflict(s.leases[current].expiresAt))
      else if Exclusive(s.leases[current].state) then
        (Place(SetState(s, current, Expired), c), Acquired(c.permitId))
      else (Place(s, c), Acquired(c.permitId))
  }

  function AcquireLease(s: Store, c: LeaseView, now: int): (r: (Store, AcquireResult))
    requires Filed(s)
    ensures if r.1.Acquired? then r.1.permitId == c.permitId else r.0 == s
  {
    if Key(c) in s.byRequest then
      var prior := s.byRequest[Key(c)];
      if s.leases[prior].fingerprint != c.fingerprint then (s, IdempotencyConflict) else (s, Idempotent(prior))
    else
      var blocking := FirstBlocking(s, s.labelOrder, c.requester, now);
      if blocking.Some? then (s, Conflict(s.leases[blocking.value].expiresAt))
      else AcquireLabel(s, c, now)
  }

  function SaveSignedPermit(s: Store, id: Hash, permit: Permit, signature: Hash): (Store, bool) {
    if id in s.signed && s.signed[id].signature != signature then (s, false)
    else (s.(signed := s.signed[id := SignedPermit(permit, signature)]), true)
  }

  function GetSignedPermit(s: Store, id: Hash): Option<SignedPermit> {
    if id in s.signed then Some(s.signed[id]) else None
  }

  function MarkSubmitted(s: Store, id: Hash, tx: Hash): (r: (Store, bool))
    ensures SameIndexes(s, r.0)
  {
    if !Indexed(s, id) then (s, false)
    else
      var l := s.leases[id];
      if !l.state.Leased? && !(l.state.Submitted? && l.txHash == Some(tx)) then (s, false)
      else (s.(leases := s.leases[id := l.(state := Submitted, txHash := Some(tx))]), true)
  }

  function MarkConfirmed(s: Store, id: Hash, tx: Hash, tokenId: nat): (r: (Store, bool))
    ensures SameIndexes(s, r.0)
  {
    if !Indexed(s, id) then (s, false)
    else
      var l := s.leases[id];
      if l.state.Confirmed? then (s, l.txHash == Some(tx) && l.tokenId == Some(tokenId))
      else if !l.state.Submitted? || l.txHash != Some(tx) then (s, false)
      else (s.(leases := s.leases[id := l.(state := Confirmed, tokenId := Some(tokenId))]), true)
  }

  // What markFailed, markManualReview and markExpired do with the lease that they looked up before an await.
  function MarkClosed(s: Store, id: Hash, tx: Hash, closing: LeaseState): (r: (Store, bool))
    requires id in s.leases
    ensures SameIndexes(s, r.0)
  {
    var l := s.leases[id];
    if l.state == closing then (s, l.txHash == Some(tx))
    else if !l.state.Submitted? || l.txHash != Some(tx) then (s, false)
    else (SetState(s, id, closing), true)
  }

  function Release(s: Store, id: Hash, requester: Address): (r: (Store, bool))
    ensures SameIndexes(s, r.0)
  {
    if !Indexed(s, id) || s.leases[id].requester != requester || !s.leases[id].state.Leased? then (s, false)
    else (SetState(s, id, Released), true)
  }

  // `[...leasesByLabel.values()].filter(item => item.state === "submitted")`
  function SubmittedIn(s: Store, order: seq<Hash>): seq<Hash>
    requires Pointing(s) && forall l <- order :: l in s.byLabel
  {
    if order == [] then []
    else
      var id := s.byLabel[order[|order| - 1]];
      SubmittedIn(s, order[..|order| - 1]) + if s.leases[id].state.Submitted? then [id] else []
  }

  predicate Stale(s: Store, id: Hash, cutoff: int)
    requires id in s.leases
  {
    s.leases[id].expiresAt <= cutoff
  }

  function Kept(order: seq<Hash>, labels: set<Hash>): seq<Hash> {
    if order == [] then []
    else (if order[0] in labels then [order[0]] else []) + Kept(order[1..], labels)
  }

  // First loop of cleanupExpiredState: every stale request entry goes, with the label entry and the
  // signature of that same lease.
  ghost function SweepRequests(s: Store, cutoff: int): Store
    requires Filed(s)
  {
    var labels := map l | l in s.byLabel
                  && !(Retained(s, s.byLabel[l]) && Stale(s, s.byLabel[l], cutoff)) :: s.byLabel[l];
    s.(byRequest := map k | k in s.byRequest && !Stale(s, s.byRequest[k], cutoff) :: s.byRequest[k],
       byLabel := labels,
       labelOrder := Kept(s.labelOrder, labels.Keys),
       signed := map id | id in s.signed && !(Retained(s, id) && Stale(s, id, cutoff)) :: s.signed[id])
  }

  // Second, defensive loop: every stale label entry goes, with the signature of its lease.
  ghost function SweepLabels(s: Store, cutoff: int): Store
    requires Filed(s)
  {
    var labels := map l | l in s.byLabel && !Stale(s, s.byLabel[l], cutoff) :: s.byLabel[l];
    s.(byLabel := labels,
       labelOrder := Kept(s.labelOrder, labels.Keys),
       signed := map id | id in s.signed && !(Indexed(s, id) && Stale(s, id, cutoff)) :: s.signed[id])
  }

  lemma SweepKeepsFiled(s: Store, cutoff: int)
    requires Filed(s)
    ensures Filed(SweepRequests(s, cutoff)) && Filed(SweepLabels(s, cutoff))
  {
    var s', s'' := SweepRequests(s, cutoff), SweepLabels(s, cutoff);
    forall l ensures l in s'.labelOrder <==> l in s'.byLabel { KeptHas(s.labelOrder, s'.byLabel.Keys, l); }
    forall l ensures l in s''.labelOrder <==> l in s''.byLabel { KeptHas(s.labelOrder, s''.byLabel.Keys, l); }
  }

  // Both loops of cleanupExpiredState; cutoff is the current time less the retention.
  ghost function Cleanup(s: Store, cutoff: int): Store
    requires Filed(s)
  {
    SweepKeepsFiled(s, cutoff);
    SweepLabels(SweepRequests(s, cutoff), cutoff)
  }

  // ---- what the operations keep ----

  lemma {:induction false} FirstBlockingFinds(s: Store, order: seq<Hash>, requester: Address, now: int)
    requires Pointing(s) && forall l <- order :: l in s.byLabel
    ensures FirstBlocking(s, order, requester, now).None? <==>
            forall l <- order :: !(s.leases[s.byLabel[l]].requester == requester && Blocks(s.leases[s.byLabel[l]], now))
    ensures var f := FirstBlocking(s, order, requester, now);
            f.Some? ==> exists l <- order :: s.byLabel[l] == f.value && s.leases[f.value].requester == requester
                                             && Blocks(s.leases[f.value], now)
  {
    if order != [] {
      FirstBlockingFinds(s, order[1..], requester, now);
      assert order == [order[0]] + order[1..];
    }
  }

  // A conflict names the expiry of a lease that blocks now, and acquisition succeeds for a new request
  // exactly when no indexed lease of the requester and no lease of the label blocks.
  lemma AcquireDecides(s: Store, c: LeaseView, now: int)
    requires Coherent(s)
    ensures var r := AcquireLease(s, c, now).1;
            r.Acquired? <==>
              && Key(c) !in s.byRequest
              && forall id | Indexed(s, id) && Blocks(s.leases[id], now) ::
                   s.leases[id].requester != c.requester && s.leases[id].labelHash != c.labelHash
    ensures var r := AcquireLease(s, c, now).1;
            r.Conflict? ==>
              exists id ::
                && Indexed(s, id) && Blocks(s.leases[id], now)
                && s.leases[id].expiresAt == r.expiresAt
                && (s.leases[id].requester == c.requester || s.leases[id].labelHash == c.labelHash)
    // The idempotent return out of the label index never runs: an idempotent answer always comes from
    // the request index.
    ensures var r := AcquireLease(s, c, now).1;
            r.Idempotent? ==>
              && Key(c) in s.byRequest && s.byRequest[Key(c)] == r.permitId
              && s.leases[r.permitId].fingerprint == c.fingerprint
  {
    FirstBlockingFinds(s, s.labelOrder, c.requester, now);
    var f := FirstBlocking(s, s.labelOrder, c.requester, now);
    if f.Some? {
      assert Indexed(s, f.value);
    } else {
      forall id | Indexed(s, id) && Blocks(s.leases[id], now)
        ensures s.leases[id].requester != c.requester
      {
        assert s.leases[id].labelHash in s.labelOrder;
      }
      if c.labelHash in s.byLabel {
        assert Indexed(s, s.byLabel[c.labelHash]);
      }
    }
  }

  lemma IndexesKeepCoherent(s: Store, s': Store)
    requires Coherent(s) && SameIndexes(s, s')
    ensures Coherent(s')
  {
    forall l <- s'.byLabel ensures Retained(s', s'.byLabel[l]) { assert Retained(s, s.byLabel[l]); }
  }

  lemma PlaceKeepsCoherent(s: Store, c: LeaseView)
    requires Coherent(s) && c.permitId !in s.leases && Key(c) !in s.byRequest
    ensures Coherent(Place(s, c))
  {
    var s' := Place(s, c);
    forall l <- s'.byLabel ensures Retained(s', s'.byLabel[l]) {
      if l != c.labelHash { assert Retained(s, s.byLabel[l]); }
    }
  }

  lemma ExpireKeepsCoherent(s: Store, id: Hash)
    requires Coherent(s) && id in s.leases
    ensures Coherent(SetState(s, id, Expired))
  {
    IndexesKeepCoherent(s, SetState(s, id, Expired));
  }

  lemma AcquireLabelKeepsCoherent(s: Store, c: LeaseView, now: int)
    requires Coherent(s) && c.permitId !in s.leases && Key(c) !in s.byRequest
    ensures Coherent(AcquireLabel(s, c, now).0)
  {
    PlaceKeepsCoherent(s, c);
    if c.labelHash in s.byLabel {
      ExpireKeepsCoherent(s, s.byLabel[c.labelHash]);
      PlaceKeepsCoherent(SetState(s, s.byLabel[c.labelHash], Expired), c);
    }
  }

  lemma AcquireKeepsCoherent(s: Store, c: LeaseView, now: int)
    requires Coherent(s) && c.permitId !in s.leases
    ensures Coherent(AcquireLease(s, c, now).0)
  {
    if Key(c) !in s.byRequest { AcquireLabelKeepsCoherent(s, c, now); }
  }

  // A lease pushed out of the label index by an acquisition no longer blocks: it was confirmed or released,
  // or it was a leased, failed or already expired lease past its expiry, and it is left expired unless it
  // was confirmed or released. Every other lease keeps its fields and its place in both indexes.
  ghost predicate Displaced(s: Store, s': Store, c: LeaseView, now: int, id: Hash)
    requires id in s.leases
  {
    && id in s'.leases
    && (Retained(s', id) <==> Retained(s, id))
    && if Indexed(s, id) && s.leases[id].labelHash == c.labelHash then
         && !Indexed(s', id) && !Blocks(s.leases[id], now)
         && s'.leases[id] ==
            s.leases[id].(state := if Exclusive(s.leases[id].state) then Expired else s.leases[id].state)
       else s'.leases[id] == s.leases[id] && (Indexed(s', id) <==> Indexed(s, id))
  }

  ghost predicate AcquiredOver(s: Store, s': Store, c: LeaseView, now: int) {
    && s'.leases.Keys == s.leases.Keys + {c.permitId} && s'.leases[c.permitId] == c
    && Indexed(s', c.permitId) && Retained(s', c.permitId) && s'.signed == s.signed
    && forall id <- s.leases :: Displaced(s, s', c, now, id)
  }

  lemma PlaceDisplaces(s: Store, c: LeaseView, now: int, id: Hash)
    requires Filed(s) && c.permitId !in s.leases && Key(c) !in s.byRequest && id in s.leases
    requires AcquireLabel(s, c, now).1.Acquired?
    ensures Displaced(s, AcquireLabel(s, c, now).0, c, now, id)
  {
  }

  lemma AcquireLabelDisplaces(s: Store, c: LeaseView, now: int)
    requires Coherent(s) && c.permitId !in s.leases && Key(c) !in s.byRequest
    ensures var (s', r) := AcquireLabel(s, c, now); r.Acquired? ==> AcquiredOver(s, s', c, now)
  {
    var (s', r) := AcquireLabel(s, c, now);
    if r.Acquired? {
      forall id <- s.leases ensures Displaced(s, s', c, now, id) { PlaceDisplaces(s, c, now, id); }
    }
  }

  lemma AcquireDisplaces(s: Store, c: LeaseView, now: int)
    requires Coherent(s) && c.permitId !in s.leases
    ensures var (s', r) := AcquireLease(s, c, now); if !r.Acquired? then s' == s else AcquiredOver(s, s', c, now)
  {
    if Key(c) !in s.byRequest { AcquireLabelDisplaces(s, c, now); }
  }

  lemma {:induction false} KeptHas(order: seq<Hash>, labels: set<Hash>, l: Hash)
    ensures l in Kept(order, labels) <==> l in order && l in labels
  {
    if order != [] {
      KeptHas(order[1..], labels, l);
      assert order == [order[0]] + order[1..];
    }
  }

  // On coherent indexes cleanup keeps them coherent and its second loop removes nothing.
  lemma SecondLoopRemovesNothing(s: Store, cutoff: int)
    requires Coherent(s)
    ensures Coherent(SweepRequests(s, cutoff))
    ensures SweepLabels(SweepRequests(s, cutoff), cutoff) == SweepRequests(s, cutoff)
  {
    var s' := SweepRequests(s, cutoff);
    SweepKeepsFiled(s, cutoff);
    forall l <- s'.byLabel ensures Retained(s', s'.byLabel[l]) && !Stale(s', s'.byLabel[l], cutoff) {
      assert Retained(s, s.byLabel[l]);
    }
    var s'' := SweepLabels(s', cutoff);
    assert s''.byLabel == s'.byLabel;
    assert s''.signed == s'.signed;
    KeptTwice(s.labelOrder, s'.byLabel.Keys, s'.byLabel.Keys);
  }

  lemma CleanupIsOneSweep(s: Store, cutoff: int)
    requires Coherent(s)
    ensures Cleanup(s, cutoff) == SweepRequests(s, cutoff)
  {
    SecondLoopRemovesNothing(s, cutoff);
  }

  lemma KeptHasAll(order: seq<Hash>, labels: set<Hash>)
    ensures forall l :: l in Kept(order, labels) <==> l in order && l in labels
  {
    forall l ensures l in Kept(order, labels) <==> l in order && l in labels { KeptHas(order, labels, l); }
  }

  lemma {:induction false} KeptTwice(order: seq<Hash>, labels: set<Hash>, fewer: set<Hash>)
    requires fewer <= labels
    ensures Kept(Kept(order, labels), fewer) == Kept(order, fewer)
  {
    if order != [] {
      KeptTwice(order[1..], labels, fewer);
      var rest := Kept(order[1..], labels);
      if order[0] in labels {
        assert Kept(order, labels) == [order[0]] + rest;
        assert ([order[0]] + rest)[1..] == rest;
      } else {
        assert Kept(order, labels) == rest;
      }
    }
  }
}

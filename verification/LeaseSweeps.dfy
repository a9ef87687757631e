// The two loops of cleanupExpiredState, one deleted entry at a time.
module LeaseSweeps {
  import opened Options
  import opened Permits
  import opened Leases

  predicate Dropped(s: Store, id: Hash, cutoff: int, done: set<RequestKey>) {
    Retained(s, id) && Key(s.leases[id]) in done && Stale(s, id, cutoff)
  }

  // The store after the first loop has looked at the request keys in `done`.
  ghost function SweptKeys(s: Store, cutoff: int, done: set<RequestKey>): Store
    requires Filed(s)
  {
    var labels := map l | l in s.byLabel && !Dropped(s, s.byLabel[l], cutoff, done) :: s.byLabel[l];
    s.(byRequest := map k | k in s.byRequest && !(k in done && Stale(s, s.byRequest[k], cutoff)) :: s.byRequest[k],
       byLabel := labels,
       labelOrder := Kept(s.labelOrder, labels.Keys),
       signed := map id | id in s.signed && !Dropped(s, id, cutoff, done) :: s.signed[id])
  }

  // The store after the second loop has looked at the labels in `done`.
  ghost function SweptLabels(s: Store, cutoff: int, done: set<Hash>): Store
    requires Filed(s)
  {
    var labels := map l | l in s.byLabel && !(l in done && Stale(s, s.byLabel[l], cutoff)) :: s.byLabel[l];
    s.(byLabel := labels,
       labelOrder := Kept(s.labelOrder, labels.Keys),
       signed := map id | id in s.signed
                 && !(Indexed(s, id) && s.leases[id].labelHash in done && Stale(s, id, cutoff)) ::
                   s.signed[id])
  }

  function Without<K, V>(m: map<K, V>, k: K): map<K, V> {
    map x | x in m && x != k :: m[x]
  }

  function DropLabel(s: Store, l: Hash): Store {
    s.(byLabel := Without(s.byLabel, l), labelOrder := Kept(s.labelOrder, Without(s.byLabel, l).Keys))
  }

  // One deletion of the first loop.
  function DropRequest(s: Store, k: RequestKey): Store
    requires k in s.byRequest && s.byRequest[k] in s.leases
  {
    var id := s.byRequest[k];
    var s1 := s.(byRequest := Without(s.byRequest, k), signed := Without(s.signed, id));
    if Indexed(s, id) then DropLabel(s1, s.leases[id].labelHash) else s1
  }

  // One deletion of the second loop.
  function DropOrphan(s: Store, l: Hash): Store
    requires l in s.byLabel
  {
    DropLabel(s.(signed := Without(s.signed, s.byLabel[l])), l)
  }

  lemma {:induction false} KeptAll(order: seq<Hash>, labels: set<Hash>)
    requires forall l <- order :: l in labels
    ensures Kept(order, labels) == order
  {
    if order != [] {
      assert order == [order[0]] + order[1..];
      KeptAll(order[1..], labels);
    }
  }

  lemma SweptNoKeys(s: Store, cutoff: int)
    requires Filed(s)
    ensures SweptKeys(s, cutoff, {}) == s
  {
    var none := SweptKeys(s, cutoff, {});
    KeptAll(s.labelOrder, s.byLabel.Keys);
    assert none.byLabel == s.byLabel;
    assert none.byRequest == s.byRequest;
    assert none.signed == s.signed;
  }

  lemma SweptNoLabels(s: Store, cutoff: int)
    requires Filed(s)
    ensures SweptLabels(s, cutoff, {}) == s
  {
    var none := SweptLabels(s, cutoff, {});
    KeptAll(s.labelOrder, s.byLabel.Keys);
    assert none.byLabel == s.byLabel;
    assert none.signed == s.signed;
  }

  lemma SweptAllKeys(s: Store, cutoff: int)
    requires Filed(s)
    ensures SweptKeys(s, cutoff, s.byRequest.Keys) == SweepRequests(s, cutoff)
  {
    var all, sweep := SweptKeys(s, cutoff, s.byRequest.Keys), SweepRequests(s, cutoff);
    assert forall id :: Dropped(s, id, cutoff, s.byRequest.Keys) <==> Retained(s, id) && Stale(s, id, cutoff);
    assert all.byRequest == sweep.byRequest;
    assert all.byLabel == sweep.byLabel;
    assert all.signed == sweep.signed;
  }

  lemma SweptAllLabels(s: Store, cutoff: int)
    requires Filed(s)
    ensures SweptLabels(s, cutoff, s.byLabel.Keys) == SweepLabels(s, cutoff)
  {
    assert SweptLabels(s, cutoff, s.byLabel.Keys).byLabel == SweepLabels(s, cutoff).byLabel;
    assert SweptLabels(s, cutoff, s.byLabel.Keys).signed == SweepLabels(s, cutoff).signed;
  }

  // Looking at one more key adds its own lease, when stale, to the dropped ones.
  lemma DroppedStep(s: Store, cutoff: int, done: set<RequestKey>, k: RequestKey)
    requires Filed(s) && k in s.byRequest
    ensures forall id :: Dropped(s, id, cutoff, done + {k}) <==>
                           Dropped(s, id, cutoff, done) || (id == s.byRequest[k] && Stale(s, id, cutoff))
  {
  }

  lemma SweepKeyStep(s: Store, cutoff: int, done: set<RequestKey>, k: RequestKey)
    requires Filed(s) && k in s.byRequest && k !in done
    ensures var was := SweptKeys(s, cutoff, done);
            && k in was.byRequest && was.byRequest[k] == s.byRequest[k]
            && SweptKeys(s, cutoff, done + {k}) == if Stale(s, s.byRequest[k], cutoff) then DropRequest(was, k) else was
  {
    var was, now := SweptKeys(s, cutoff, done), SweptKeys(s, cutoff, done + {k});
    DroppedStep(s, cutoff, done, k);
    if Stale(s, s.byRequest[k], cutoff) {
      var want := DropRequest(was, k);
      assert now.byRequest == want.byRequest;
      assert now.signed == want.signed;
      LabelsStep(s, cutoff, done, k);
    } else {
      assert now.byRequest == was.byRequest;
      assert now.signed == was.signed;
      assert now.byLabel == was.byLabel;
    }
  }

  lemma LabelsStep(s: Store, cutoff: int, done: set<RequestKey>, k: RequestKey)
    requires Filed(s) && k in s.byRequest && k !in done && Stale(s, s.byRequest[k], cutoff)
    ensures var was, now := SweptKeys(s, cutoff, done), SweptKeys(s, cutoff, done + {k});
            && k in was.byRequest && was.byRequest[k] == s.byRequest[k]
            && now.byLabel == DropRequest(was, k).byLabel && now.labelOrder == DropRequest(was, k).labelOrder
  {
    var was, now := SweptKeys(s, cutoff, done), SweptKeys(s, cutoff, done + {k});
    DroppedStep(s, cutoff, done, k);
    assert now.byLabel == DropRequest(was, k).byLabel;
    KeptTwice(s.labelOrder, was.byLabel.Keys, now.byLabel.Keys);
  }

  lemma SweepLabelStep(s: Store, cutoff: int, done: set<Hash>, l: Hash)
    requires Filed(s) && l in s.byLabel && l !in done
    ensures l in SweptLabels(s, cutoff, done).byLabel && SweptLabels(s, cutoff, done).byLabel[l] == s.byLabel[l]
    ensures SweptLabels(s, cutoff, done + {l})
            == if Stale(s, s.byLabel[l], cutoff) then DropOrphan(SweptLabels(s, cutoff, done), l)
               else SweptLabels(s, cutoff, done)
  {
    var was, now := SweptLabels(s, cutoff, done), SweptLabels(s, cutoff, done + {l});
    if Stale(s, s.byLabel[l], cutoff) {
      var want := DropOrphan(was, l);
      assert now.signed == want.signed;
      assert now.byLabel == want.byLabel;
      KeptTwice(s.labelOrder, was.byLabel.Keys, now.byLabel.Keys);
    } else {
      assert now.signed == was.signed;
      assert now.byLabel == was.byLabel;
    }
  }

  // ---- the loops as folds, in any order of the entries ----

  function VisitRequest(s: Store, cutoff: int, k: RequestKey): Store {
    if k in s.byRequest && s.byRequest[k] in s.leases && Stale(s, s.byRequest[k], cutoff) then DropRequest(s, k) else s
  }

  function VisitLabel(s: Store, cutoff: int, l: Hash): Store {
    if l in s.byLabel && s.byLabel[l] in s.leases && Stale(s, s.byLabel[l], cutoff) then DropOrphan(s, l) else s
  }

  function VisitRequests(s: Store, cutoff: int, keys: seq<RequestKey>): Store {
    if keys == [] then s else VisitRequest(VisitRequests(s, cutoff, keys[..|keys| - 1]), cutoff, keys[|keys| - 1])
  }

  function VisitLabels(s: Store, cutoff: int, labels: seq<Hash>): Store {
    if labels == [] then s else VisitLabel(VisitLabels(s, cutoff, labels[..|labels| - 1]), cutoff, labels[|labels| - 1])
  }

  function Elements<T>(xs: seq<T>): set<T> {
    set x | x in xs
  }

  lemma ElementsGrow<T>(xs: seq<T>, x: T)
    ensures Elements(xs + [x]) == Elements(xs) + {x}
  {
  }

  // A key the loop has passed is gone or not stale, so passing it again would do nothing.
  lemma VisitRequestStep(s: Store, cutoff: int, done: set<RequestKey>, k: RequestKey)
    requires Filed(s) && k in s.byRequest
    ensures VisitRequest(SweptKeys(s, cutoff, done), cutoff, k) == SweptKeys(s, cutoff, done + {k})
  {
    if k in done {
      assert done + {k} == done;
    } else {
      SweepKeyStep(s, cutoff, done, k);
    }
  }

  lemma VisitLabelStep(s: Store, cutoff: int, done: set<Hash>, l: Hash)
    requires Filed(s) && l in s.byLabel
    ensures VisitLabel(SweptLabels(s, cutoff, done), cutoff, l) == SweptLabels(s, cutoff, done + {l})
  {
    if l in done {
      assert done + {l} == done;
    } else {
      SweepLabelStep(s, cutoff, done, l);
    }
  }

  lemma {:induction false} VisitedRequestsAreSwept(s: Store, cutoff: int, keys: seq<RequestKey>)
    requires Filed(s) && Elements(keys) <= s.byRequest.Keys
    ensures VisitRequests(s, cutoff, keys) == SweptKeys(s, cutoff, Elements(keys))
  {
    if keys == [] {
      SweptNoKeys(s, cutoff);
      assert Elements(keys) == {};
    } else {
      var prefix, last := keys[..|keys| - 1], keys[|keys| - 1];
      assert keys == prefix + [last];
      ElementsGrow(prefix, last);
      VisitedRequestsAreSwept(s, cutoff, prefix);
      VisitRequestStep(s, cutoff, Elements(prefix), last);
    }
  }

  lemma {:induction false} VisitedLabelsAreSwept(s: Store, cutoff: int, labels: seq<Hash>)
    requires Filed(s) && Elements(labels) <= s.byLabel.Keys
    ensures VisitLabels(s, cutoff, labels) == SweptLabels(s, cutoff, Elements(labels))
  {
    if labels == [] {
      SweptNoLabels(s, cutoff);
      assert Elements(labels) == {};
    } else {
      var prefix, last := labels[..|labels| - 1], labels[|labels| - 1];
      assert labels == prefix + [last];
      ElementsGrow(prefix, last);
      VisitedLabelsAreSwept(s, cutoff, prefix);
      VisitLabelStep(s, cutoff, Elements(prefix), last);
    }
  }

  // Both loops of cleanupExpiredState, the entries of each map taken in the given order.
  ghost predicate CleanedInOrder(s: Store, s': Store, cutoff: int, keys: seq<RequestKey>, labels: seq<Hash>) {
    var mid := VisitRequests(s, cutoff, keys);
    Elements(keys) == s.byRequest.Keys && Elements(labels) == mid.byLabel.Keys && s' == VisitLabels(mid, cutoff, labels)
  }

  // The order does not matter: any of them gives the sweep of the specification.
  lemma AnyOrderIsCleanup(s: Store, s': Store, cutoff: int, keys: seq<RequestKey>, labels: seq<Hash>)
    requires Filed(s) && CleanedInOrder(s, s', cutoff, keys, labels)
    ensures s' == Cleanup(s, cutoff)
  {
    VisitedRequestsAreSwept(s, cutoff, keys);
    SweptAllKeys(s, cutoff);
    SweepKeepsFiled(s, cutoff);
    VisitedLabelsAreSwept(SweepRequests(s, cutoff), cutoff, labels);
    SweptAllLabels(SweepRequests(s, cutoff), cutoff);
  }
}

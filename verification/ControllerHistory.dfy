// verifyIndexedControllerHistory and assertExclusiveControllerHistory (packages/config/src/promotion.ts).
// Parsing of a row and its check against the chain are given answers; URL and host checks are not modelled.
module ControllerHistory {
  import opened Options
  import opened Permits

  datatype Change = Change(controller: Address, enabled: bool)

  datatype Row = Row(block: nat, transactionIndex: nat, logIndex: nat, transactionHash: Hash, change: Change)

  // A page of the index, or one that cannot be fetched or parsed.
  datatype Answer = Rows(rows: seq<Row>) | Unreadable

  datatype Fault =
    | BadPage
    | Duplicate
    | Disordered
    | Unbounded
    | Empty
    | BadStart
    | Unproven
    | NotExclusive
    | NotEnabled

  const PAGE_SIZE := 100
  const MAX_PAGES := 50

  // ---- order and keys ----

  predicate Before(a: Row, b: Row) {
    if a.block != b.block then a.block < b.block
    else if a.transactionIndex != b.transactionIndex then a.transactionIndex < b.transactionIndex
    else a.logIndex < b.logIndex
  }

  function TransactionKey(r: Row): (Hash, nat) {
    (r.transactionHash, r.logIndex)
  }

  function BlockKey(r: Row): (nat, nat) {
    (r.block, r.logIndex)
  }

  // Rows are ordered by block, then by transaction, then by log; two rows are one event when their transaction
  // and log agree, or their block and log do.
  lemma OrderAndKeys(a: Row, b: Row)
    ensures Before(a, b) <==>
            || a.block < b.block
            || (a.block == b.block && a.transactionIndex < b.transactionIndex)
            || (a.block == b.block && a.transactionIndex == b.transactionIndex && a.logIndex < b.logIndex)
    ensures TransactionKey(a) == TransactionKey(b) <==>
            a.transactionHash == b.transactionHash && a.logIndex == b.logIndex
    ensures BlockKey(a) == BlockKey(b) <==> a.block == b.block && a.logIndex == b.logIndex
  {
  }

  // Strictly ordered, no event twice.
  ghost predicate Clean(rows: seq<Row>) {
    && (forall i, j | 0 <= i < j < |rows| :: Before(rows[i], rows[j]))
    && (forall i, j | 0 <= i < j < |rows| :: TransactionKey(rows[i]) != TransactionKey(rows[j]))
    && (forall i, j | 0 <= i < j < |rows| :: BlockKey(rows[i]) != BlockKey(rows[j]))
  }

  lemma OneMoreRow(rows: seq<Row>, row: Row)
    requires Clean(rows)
    ensures Clean(rows + [row]) <==>
            && (forall r <- rows :: TransactionKey(r) != TransactionKey(row) && BlockKey(r) != BlockKey(row))
            && (rows != [] ==> Before(rows[|rows| - 1], row))
  {
    var all := rows + [row];
    assert all[|rows|] == row;
    assert forall i | 0 <= i < |rows| :: all[i] == rows[i];
    if rows != [] && Before(rows[|rows| - 1], row) {
      forall i | 0 <= i < |rows| ensures Before(rows[i], row) {
        assert i == |rows| - 1 || Before(rows[i], rows[|rows| - 1]);
      }
    }
  }

  lemma CleanPrefix(part: seq<Row>, rows: seq<Row>)
    requires part <= rows && Clean(rows)
    ensures Clean(part)
  {
    assert forall i | 0 <= i < |part| :: part[i] == rows[i];
  }

  // ---- pagination ----

  // The rows of pages 1..n.
  function Joined(answer: nat -> Answer, n: nat): seq<Row> {
    if n == 0 then [] else Joined(answer, n - 1) + (if answer(n).Rows? then answer(n).rows else [])
  }

  // Full pages before n, and a short page n.
  ghost predicate Ends(answer: nat -> Answer, n: nat) {
    && 1 <= n <= MAX_PAGES
    && (forall p: nat | 1 <= p < n :: IsFull(answer, p))
    && answer(n).Rows? && |answer(n).rows| < PAGE_SIZE
  }

  predicate IsFull(answer: nat -> Answer, p: nat) {
    answer(p).Rows? && |answer(p).rows| == PAGE_SIZE
  }

  // The rows that pagination accepts, if any.
  ghost predicate Discovers(answer: nat -> Answer, rows: seq<Row>) {
    exists n: nat :: Ends(answer, n) && rows == Joined(answer, n) && Clean(rows)
  }

  lemma EndIsShort(answer: nat -> Answer, n: nat)
    requires Ends(answer, n)
    ensures !IsFull(answer, n)
  {
  }

  lemma EndsOnce(answer: nat -> Answer, m: nat, n: nat)
    requires Ends(answer, m) && Ends(answer, n)
    ensures m == n
  {
    EndIsShort(answer, m);
    EndIsShort(answer, n);
  }

  ghost predicate Keyed(rows: seq<Row>, transactionKeys: set<(Hash, nat)>, blockKeys: set<(nat, nat)>) {
    && (forall k :: k in transactionKeys <==> exists i | 0 <= i < |rows| :: TransactionKey(rows[i]) == k)
    && (forall k :: k in blockKeys <==> exists i | 0 <= i < |rows| :: BlockKey(rows[i]) == k)
  }

  method AddRow(row: Row, discovered: seq<Row>, transactionKeys: set<(Hash, nat)>, blockKeys: set<(nat, nat)>)
    returns (fault: Option<Fault>, rows: seq<Row>, transactions: set<(Hash, nat)>, blocks: set<(nat, nat)>)
    requires Clean(discovered) && Keyed(discovered, transactionKeys, blockKeys)
    ensures fault.None? <==> Clean(discovered + [row])
    ensures fault.None? ==> rows == discovered + [row] && Keyed(rows, transactions, blocks)
  {
    OneMoreRow(discovered, row);
    rows, transactions, blocks := discovered, transactionKeys, blockKeys;
    if TransactionKey(row) in transactionKeys || BlockKey(row) in blockKeys {
      return Some(Duplicate), rows, transactions, blocks;
    }
    if discovered != [] && !Before(discovered[|discovered| - 1], row) {
      return Some(Disordered), rows, transactions, blocks;
    }
    fault, rows := None, discovered + [row];
    transactions, blocks := transactionKeys + {TransactionKey(row)}, blockKeys + {BlockKey(row)};
    KeyedOneMore(discovered, row, transactionKeys, blockKeys);
  }

  lemma KeyedOneMore(rows: seq<Row>, row: Row, transactionKeys: set<(Hash, nat)>, blockKeys: set<(nat, nat)>)
    requires Keyed(rows, transactionKeys, blockKeys)
    ensures Keyed(rows + [row], transactionKeys + {TransactionKey(row)}, blockKeys + {BlockKey(row)})
  {
    var all := rows + [row];
    assert all[|rows|] == row;
    assert forall i | 0 <= i < |rows| :: all[i] == rows[i];
  }

  method AddPage(page: seq<Row>, discovered: seq<Row>, transactionKeys: set<(Hash, nat)>, blockKeys: set<(nat, nat)>)
    returns (fault: Option<Fault>, rows: seq<Row>, transactions: set<(Hash, nat)>, blocks: set<(nat, nat)>)
    requires Clean(discovered) && Keyed(discovered, transactionKeys, blockKeys)
    ensures fault.None? <==> Clean(discovered + page)
    ensures fault.None? ==> rows == discovered + page && Keyed(rows, transactions, blocks)
  {
    rows, transactions, blocks := discovered, transactionKeys, blockKeys;
    for i := 0 to |page|
      invariant rows == discovered + page[..i] && Clean(rows) && Keyed(rows, transactions, blocks)
    {
      assert page[..i + 1] == page[..i] + [page[i]];
      assert discovered + page[..i + 1] == rows + [page[i]];
      fault, rows, transactions, blocks := AddRow(page[i], rows, transactions, blocks);
      if fault.Some? {
        if Clean(discovered + page) { CleanPrefix(discovered + page[..i + 1], discovered + page); }
        return;
      }
    }
    assert page[..|page|] == page;
    fault := None;
  }

  method DiscoverHistory(answer: nat -> Answer) returns (result: Result<seq<Row>, Fault>)
    ensures result.Ok? ==> Discovers(answer, result.value)
    ensures result.Err? ==> forall rows :: !Discovers(answer, rows)
  {
    var discovered := [];
    var transactionKeys, blockKeys := {}, {};
    for page := 1 to MAX_PAGES + 1
      invariant discovered == Joined(answer, page - 1) && Clean(discovered)
                && Keyed(discovered, transactionKeys, blockKeys)
      invariant forall p: nat | 1 <= p < page :: IsFull(answer, p)
    {
      var served := answer(page);
      if served.Unreadable? || |served.rows| > PAGE_SIZE {
        NotPast(answer, page);
        return Err(BadPage);
      }
      var fault;
      fault, discovered, transactionKeys, blockKeys := AddPage(served.rows, discovered, transactionKeys, blockKeys);
      if fault.Some? {
        DirtyPage(answer, page);
        return Err(fault.value);
      }
      if |served.rows| < PAGE_SIZE {
        assert Ends(answer, page);
        return Ok(discovered);
      }
    }
    NotPast(answer, MAX_PAGES + 1);
    return Err(Unbounded);
  }

  // Full pages before n mean that pagination has not ended before n.
  lemma NotEarlier(answer: nat -> Answer, n: nat, m: nat)
    requires (forall p: nat | 1 <= p < n :: IsFull(answer, p)) && Ends(answer, m)
    ensures n <= m
  {
    EndIsShort(answer, m);
  }

  lemma NotPast(answer: nat -> Answer, n: nat)
    requires 1 <= n <= MAX_PAGES + 1 && forall p: nat | 1 <= p < n :: IsFull(answer, p)
    requires n <= MAX_PAGES ==> answer(n).Unreadable? || |answer(n).rows| > PAGE_SIZE
    ensures forall rows :: !Discovers(answer, rows)
  {
    assert !IsFull(answer, n) || n == MAX_PAGES + 1;
    forall m: nat | Ends(answer, m) ensures false { NotEarlier(answer, n, m); }
  }

  lemma {:induction false} JoinedPrefix(answer: nat -> Answer, m: nat, n: nat)
    requires m <= n
    ensures Joined(answer, m) <= Joined(answer, n)
  {
    if m < n { JoinedPrefix(answer, m, n - 1); }
  }

  lemma DirtyPage(answer: nat -> Answer, n: nat)
    requires n >= 1 && forall p: nat | 1 <= p < n :: IsFull(answer, p)
    requires !Clean(Joined(answer, n))
    ensures forall rows :: !Discovers(answer, rows)
  {
    forall m: nat | Ends(answer, m) ensures !Clean(Joined(answer, m)) {
      NotEarlier(answer, n, m);
      JoinedPrefix(answer, n, m);
      if Clean(Joined(answer, m)) { CleanPrefix(Joined(answer, n), Joined(answer, m)); }
    }
  }

  // ---- an index that serves fixed slices of one list ----

  function Least(a: nat, b: nat): nat {
    if a < b then a else b
  }

  function Slice(list: seq<Row>, p: nat): seq<Row>
    requires p >= 1
  {
    list[Least(PAGE_SIZE * (p - 1), |list|)..Least(PAGE_SIZE * p, |list|)]
  }

  // Page p holds the rows from 100 * (p - 1) on, at most a hundred of them.
  lemma SliceIsPage(list: seq<Row>, p: nat)
    requires p >= 1
    ensures |Slice(list, p)| == if |list| <= 100 * (p - 1) then 0 else Least(100, |list| - 100 * (p - 1))
    ensures forall k | 0 <= k < |Slice(list, p)| :: 100 * (p - 1) + k < |list|
                                                     && Slice(list, p)[k] == list[100 * (p - 1) + k]
  {
  }

  ghost predicate Serves(answer: nat -> Answer, list: seq<Row>) {
    forall p: nat | p >= 1 :: answer(p) == Rows(Slice(list, p))
  }

  lemma {:induction false} JoinedSlices(answer: nat -> Answer, list: seq<Row>, n: nat)
    requires Serves(answer, list)
    ensures Joined(answer, n) == list[..Least(PAGE_SIZE * n, |list|)]
  {
    if n > 0 {
      JoinedSlices(answer, list, n - 1);
      assert answer(n) == Rows(Slice(list, n));
      var a, b := Least(PAGE_SIZE * (n - 1), |list|), Least(PAGE_SIZE * n, |list|);
      assert list[..a] + list[a..b] == list[..b];
    }
  }

  lemma SlicesEnd(answer: nat -> Answer, list: seq<Row>, n: nat)
    requires Serves(answer, list)
    ensures Ends(answer, n) <==> n == |list| / 100 + 1 && |list| < 5_000
  {
    if n >= 1 { assert answer(n) == Rows(Slice(list, n)); }
    if n == |list| / PAGE_SIZE + 1 {
      forall p: nat | 1 <= p < n ensures IsFull(answer, p) { assert answer(p) == Rows(Slice(list, p)); }
    }
    if Ends(answer, n) && n > 1 {
      assert IsFull(answer, n - 1);
      assert answer(n - 1) == Rows(Slice(list, n - 1));
    }
  }

  lemma WholeListIsJoined(answer: nat -> Answer, list: seq<Row>, n: nat)
    requires Serves(answer, list) && Ends(answer, n)
    ensures Joined(answer, n) == list && |list| < 5_000
  {
    SlicesEnd(answer, list, n);
    JoinedSlices(answer, list, n);
    assert list[..|list|] == list;
  }

  // Pagination accepts exactly the whole list, and only when it is short of 5,000 rows, ordered and without
  // duplicates.
  lemma WholeListOrNothing(answer: nat -> Answer, list: seq<Row>, rows: seq<Row>)
    requires Serves(answer, list)
    ensures Discovers(answer, rows) <==> rows == list && |list| < 5_000 && Clean(list)
  {
    if Discovers(answer, rows) {
      var m: nat :| Ends(answer, m) && rows == Joined(answer, m) && Clean(rows);
      WholeListIsJoined(answer, list, m);
    } else if |list| < 5_000 {
      SlicesEnd(answer, list, |list| / 100 + 1);
      WholeListIsJoined(answer, list, |list| / 100 + 1);
    }
  }

  // ---- the exclusivity of the canonical controller ----

  // The controllers enabled after a replay.
  function Replayed(changes: seq<Change>): set<Address> {
    if changes == [] then {}
    else
      var last := changes[|changes| - 1];
      var before := Replayed(changes[..|changes| - 1]);
      if last.enabled then before + {last.controller} else before - {last.controller}
  }

  // A controller is enabled exactly when its last change says so.
  lemma {:induction false} LastChangeDecides(changes: seq<Change>, controller: Address)
    ensures controller in Replayed(changes) <==>
            exists i | 0 <= i < |changes| :: changes[i] == Change(controller, true)
              && forall j | i < j < |changes| :: changes[j].controller != controller
  {
    if changes != [] {
      var last := |changes| - 1;
      LastChangeDecides(changes[..last], controller);
      if changes[last].controller == controller {
        assert changes[last].enabled ==> changes[last] == Change(controller, true);
      } else if controller in Replayed(changes) {
        var i :| 0 <= i < last && changes[..last][i] == Change(controller, true)
                 && forall j | i < j < last :: changes[..last][j].controller != controller;
        assert changes[i] == Change(controller, true);
        assert forall j | i < j < last :: changes[j] == changes[..last][j];
      } else {
        forall i | 0 <= i < |changes| && changes[i] == Change(controller, true)
          ensures exists j :: i < j < |changes| && changes[j].controller == controller
        {
          assert changes[..last][i] == Change(controller, true);
          var j :| i < j < last && changes[..last][j].controller == controller;
          assert changes[j].controller == controller;
        }
      }
    }
  }

  ghost predicate OnlyEnables(changes: seq<Change>, canonical: Address) {
    forall i | 0 <= i < |changes| && changes[i].enabled :: changes[i].controller == canonical
  }

  ghost predicate Exclusive(changes: seq<Change>, canonical: Address) {
    OnlyEnables(changes, canonical) && Replayed(changes) == {canonical}
  }

  method AssertExclusiveControllerHistory(changes: seq<Change>, canonical: Address) returns (ok: bool)
    ensures ok <==> Exclusive(changes, canonical)
  {
    var enabled: set<Address> := {};
    for i := 0 to |changes|
      invariant OnlyEnables(changes[..i], canonical)
      invariant enabled == Replayed(changes[..i])
    {
      assert changes[..i + 1][..i] == changes[..i] && changes[..i + 1][i] == changes[i];
      if changes[i].enabled && changes[i].controller != canonical { return false; }
      enabled := if changes[i].enabled then enabled + {changes[i].controller} else enabled - {changes[i].controller};
    }
    assert changes[..|changes|] == changes;
    ok := |enabled| == 1 && canonical in enabled;
    if ok { SingleIs(enabled, canonical); }
  }

  lemma SingleIs(s: set<Address>, a: Address)
    requires |s| == 1 && a in s
    ensures s == {a}
  {
    assert |s - {a}| == 0;
  }

  // At no point of an exclusive history was another controller enabled.
  lemma {:induction false} NeverAnother(changes: seq<Change>, canonical: Address, n: nat)
    requires OnlyEnables(changes, canonical) && n <= |changes|
    ensures Replayed(changes[..n]) <= {canonical}
  {
    if n > 0 {
      NeverAnother(changes, canonical, n - 1);
      assert changes[..n][..n - 1] == changes[..n - 1];
    }
  }

  // ---- the whole verification ----

  function Changes(rows: seq<Row>): seq<Change> {
    seq(|rows|, i requires 0 <= i < |rows| => rows[i].change)
  }

  ghost predicate Verified(rows: seq<Row>, canonical: Address, proven: Row -> bool, enabledNow: bool) {
    && rows != [] && rows[0].change == Change(canonical, true)
    && (forall i | 0 <= i < |rows| :: proven(rows[i]))
    && Exclusive(Changes(rows), canonical)
    && enabledNow
  }

  method VerifyIndexedControllerHistory(answer: nat -> Answer, canonical: Address, proven: Row -> bool,
                                        enabledNow: bool)
    returns (result: Result<seq<Row>, Fault>)
    ensures result.Ok? ==> Discovers(answer, result.value) && Verified(result.value, canonical, proven, enabledNow)
    ensures result.Err? ==> forall rows :: !(Discovers(answer, rows) && Verified(rows, canonical, proven, enabledNow))
  {
    var found := DiscoverHistory(answer);
    if found.Err? { return found; }
    var rows := found.value;
    forall other | Discovers(answer, other) ensures other == rows { DiscoversOne(answer, other, rows); }
    if rows == [] { return Err(Empty); }
    if rows[0].change != Change(canonical, true) { return Err(BadStart); }
    for i := 0 to |rows|
      invariant forall j | 0 <= j < i :: proven(rows[j])
    {
      if !proven(rows[i]) { return Err(Unproven); }
    }
    var exclusive := AssertExclusiveControllerHistory(Changes(rows), canonical);
    if !exclusive { return Err(NotExclusive); }
    if !enabledNow { return Err(NotEnabled); }
    return Ok(rows);
  }

  lemma DiscoversOne(answer: nat -> Answer, a: seq<Row>, b: seq<Row>)
    requires Discovers(answer, a) && Discovers(answer, b)
    ensures a == b
  {
    var m: nat :| Ends(answer, m) && a == Joined(answer, m) && Clean(a);
    var n: nat :| Ends(answer, n) && b == Joined(answer, n) && Clean(b);
    EndsOnce(answer, m, n);
  }

  // What an acceptance means for an index that serves one list: the list is complete, starts with the canonical
  // controller, has every row proven, and enables no other controller at any point, and the canonical one at the
  // end.
  lemma AcceptedHistoryIsExclusive(answer: nat -> Answer, list: seq<Row>, rows: seq<Row>, canonical: Address,
                                   proven: Row -> bool, enabledNow: bool, n: nat)
    requires Serves(answer, list) && n <= |list|
    requires Discovers(answer, rows) && Verified(rows, canonical, proven, enabledNow)
    ensures rows == list && 0 < |list| < 5_000 && Clean(list)
    ensures list[0].change.controller == canonical && list[0].change.enabled && enabledNow
    ensures forall row <- list :: proven(row)
    ensures Replayed(Changes(list)[..n]) <= {canonical}
    ensures Replayed(Changes(list)) == {canonical}
  {
    WholeListOrNothing(answer, list, rows);
    NeverAnother(Changes(list), canonical, n);
  }

  // The canonical controller's last change.
  predicate LastlyEnabled(rows: seq<Row>, canonical: Address, i: nat) {
    && i < |rows| && rows[i].change.controller == canonical && rows[i].change.enabled
    && forall j | i < j < |rows| :: rows[j].change.controller != canonical
  }

  lemma ExclusiveExactly(rows: seq<Row>, canonical: Address)
    ensures Exclusive(Changes(rows), canonical) <==>
            && (forall row <- rows :: row.change.enabled ==> row.change.controller == canonical)
            && (exists i: nat :: LastlyEnabled(rows, canonical, i))
  {
    var changes := Changes(rows);
    LastChangeDecides(changes, canonical);
    if OnlyEnables(changes, canonical) {
      NeverAnother(changes, canonical, |changes|);
      assert changes[..|changes|] == changes;
    }
    forall row | row in rows && OnlyEnables(changes, canonical) && row.change.enabled
      ensures row.change.controller == canonical
    {
      var i :| 0 <= i < |rows| && rows[i] == row;
      assert changes[i] == row.change;
    }
    if canonical in Replayed(changes) {
      var i :| 0 <= i < |changes| && changes[i] == Change(canonical, true)
               && forall j | i < j < |changes| :: changes[j].controller != canonical;
      assert LastlyEnabled(rows, canonical, i) by {
        assert forall j | i < j < |rows| :: changes[j] == rows[j].change;
      }
    }
    if i: nat :| LastlyEnabled(rows, canonical, i) {
      assert changes[i] == Change(canonical, true);
    }
  }

  // Exactly the served lists that meet these conditions are accepted.
  lemma AcceptedExactly(answer: nat -> Answer, list: seq<Row>, canonical: Address, proven: Row -> bool,
                        enabledNow: bool)
    requires Serves(answer, list)
    ensures Discovers(answer, list) && Verified(list, canonical, proven, enabledNow) <==>
            && 0 < |list| < 5_000 && Clean(list) && (forall row <- list :: proven(row)) && enabledNow
            && list[0].change.controller == canonical && list[0].change.enabled
            && (forall row <- list :: row.change.enabled ==> row.change.controller == canonical)
            && (exists i: nat :: LastlyEnabled(list, canonical, i))
  {
    WholeListOrNothing(answer, list, list);
    ExclusiveExactly(list, canonical);
  }
}

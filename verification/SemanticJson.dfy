// The canonical JSON form (packages/config/src/manifest.ts). An object is its
// members in insertion order; keys are not array indexes, which JavaScript would order on its own.
module SemanticJson {
  import opened Options
  import opened Permits

  datatype Json =
    | Null
    | Bool(b: bool)
    | Number(n: int)
    | Text(text: string)
    | Array(items: seq<Json>)
    | Object(members: seq<Member>)

  datatype Member = Member(key: string, value: Json)

  // ---- the order of keys ----

  predicate Le(a: string, b: string) {
    a == "" || (b != "" && (a[0] < b[0] || (a[0] == b[0] && Le(a[1..], b[1..]))))
  }

  predicate Lt(a: string, b: string) {
    a != b && Le(a, b)
  }

  lemma {:induction false} LeIsTotal(a: string, b: string)
    ensures Le(a, b) || Le(b, a)
  {
    if a != "" && b != "" { LeIsTotal(a[1..], b[1..]); }
  }

  lemma {:induction false} LeIsAntisymmetric(a: string, b: string)
    requires Le(a, b) && Le(b, a)
    ensures a == b
  {
    if a != "" && b != "" {
      LeIsAntisymmetric(a[1..], b[1..]);
      assert a == [a[0]] + a[1..] && b == [b[0]] + b[1..];
    }
  }

  lemma {:induction false} LeIsTransitive(a: string, b: string, c: string)
    requires Le(a, b) && Le(b, c)
    ensures Le(a, c)
  {
    if a != "" && a[0] == b[0] == c[0] { LeIsTransitive(a[1..], b[1..], c[1..]); }
  }

  // ---- members ----

  function Keys(ms: seq<Member>): set<string> {
    set m <- ms :: m.key
  }

  predicate DistinctKeys(ms: seq<Member>) {
    forall i, j | 0 <= i < j < |ms| :: ms[i].key != ms[j].key
  }

  predicate Ascending(ms: seq<Member>) {
    forall i, j | 0 <= i < j < |ms| :: Lt(ms[i].key, ms[j].key)
  }

  function Get(ms: seq<Member>, key: string): Json
    requires key in Keys(ms)
  {
    if ms[0].key == key then ms[0].value else Get(ms[1..], key)
  }

  lemma KeysOfFirst(ms: seq<Member>)
    requires ms != []
    ensures Keys(ms) == {ms[0].key} + Keys(ms[1..])
    ensures DistinctKeys(ms) ==> ms[0].key !in Keys(ms[1..]) && DistinctKeys(ms[1..])
  {
    assert forall m :: m in ms <==> m == ms[0] || m in ms[1..];
  }

  function Insert(m: Member, ms: seq<Member>): seq<Member> {
    if ms == [] || Le(m.key, ms[0].key) then [m] + ms else [ms[0]] + Insert(m, ms[1..])
  }

  lemma PutInFront(m: Member, ms: seq<Member>)
    requires Ascending(ms) && (ms == [] || Lt(m.key, ms[0].key))
    ensures Ascending([m] + ms) && Keys([m] + ms) == Keys(ms) + {m.key}
  {
    KeysOfFirst([m] + ms);
    assert ([m] + ms)[1..] == ms;
    forall j | 0 <= j < |ms| ensures Lt(m.key, ms[j].key) {
      if j > 0 {
        LeIsTransitive(m.key, ms[0].key, ms[j].key);
        if m.key == ms[j].key { LeIsAntisymmetric(m.key, ms[0].key); }
      }
    }
  }

  lemma {:induction false} InsertPlaces(m: Member, ms: seq<Member>)
    requires Ascending(ms) && m.key !in Keys(ms)
    ensures Keys(Insert(m, ms)) == Keys(ms) + {m.key} && Ascending(Insert(m, ms))
    ensures forall k <- Keys(Insert(m, ms)) :: Get(Insert(m, ms), k) == if k == m.key then m.value else Get(ms, k)
  {
    if ms == [] || Le(m.key, ms[0].key) {
      if ms != [] { assert ms[0].key in Keys(ms); }
      PutInFront(m, ms);
      assert ([m] + ms)[1..] == ms;
    } else {
      KeysOfFirst(ms);
      InsertPlaces(m, ms[1..]);
      LeIsTotal(m.key, ms[0].key);
      HeadIsLeast(ms);
      var rest := Insert(m, ms[1..]);
      assert rest[0].key in Keys(rest);
      PutInFront(ms[0], rest);
      assert ([ms[0]] + rest)[1..] == rest;
    }
  }

  lemma HeadIsLeast(ms: seq<Member>)
    requires Ascending(ms) && ms != []
    ensures forall k <- Keys(ms[1..]) :: Lt(ms[0].key, k)
  {
    forall k <- Keys(ms[1..]) ensures Lt(ms[0].key, k) {
      var i :| 0 <= i < |ms[1..]| && ms[1..][i].key == k;
      assert ms[i + 1].key == k;
    }
  }

  lemma NoKeys(ms: seq<Member>)
    ensures Keys(ms) == {} <==> ms == []
  {
    if ms != [] { assert ms[0].key in Keys(ms); }
  }

  // Two ascending objects with the same keys and values are the same text.
  lemma {:induction false} AscendingIsUnique(a: seq<Member>, b: seq<Member>)
    requires Ascending(a) && Ascending(b) && Keys(a) == Keys(b)
    requires forall k <- Keys(a) :: Get(a, k) == Get(b, k)
    ensures a == b
  {
    NoKeys(a);
    NoKeys(b);
    if a != [] {
      assert a[0].key in Keys(b);
      KeysOfFirst(a);
      KeysOfFirst(b);
      HeadIsLeast(a);
      HeadIsLeast(b);
      if a[0].key != b[0].key { LeIsAntisymmetric(a[0].key, b[0].key); }
      assert Keys(a[1..]) == Keys(a) - {a[0].key} && Keys(b[1..]) == Keys(b) - {b[0].key};
      forall k <- Keys(a[1..]) ensures Get(a[1..], k) == Get(b[1..], k) { assert Get(a, k) == Get(b, k); }
      AscendingIsUnique(a[1..], b[1..]);
      assert Get(a, a[0].key) == a[0].value && Get(b, b[0].key) == b[0].value;
    }
  }

  // ---- the canonical form ----

  function Sort(v: Json): Json {
    match v
    case Array(items) => Array(seq(|items|, i requires 0 <= i < |items| => Sort(items[i])))
    case Object(members) => Object(SortMembers(members))
    case _ => v
  }

  function SortMembers(ms: seq<Member>): seq<Member> {
    if ms == [] then [] else Insert(Member(ms[0].key, Sort(ms[0].value)), SortMembers(ms[1..]))
  }

  // A JSON object has each key once.
  ghost predicate WellFormed(v: Json) {
    match v
    case Array(items) => forall i | 0 <= i < |items| :: WellFormed(items[i])
    case Object(members) => DistinctKeys(members) && forall i | 0 <= i < |members| :: WellFormed(members[i].value)
    case _ => true
  }

  // Equal but for the order of object keys, at any depth.
  ghost predicate Same(a: Json, b: Json) {
    match a
    case Array(items) => b.Array? && |items| == |b.items| && forall i | 0 <= i < |items| :: Same(items[i], b.items[i])
    case Object(members) =>
      b.Object? && Keys(members) == Keys(b.members)
      && forall i | 0 <= i < |members| :: members[i].key in Keys(b.members)
                                          && Same(members[i].value, Get(b.members, members[i].key))
    case _ => a == b
  }

  lemma {:induction false} SortedMembers(ms: seq<Member>)
    requires DistinctKeys(ms)
    ensures Keys(SortMembers(ms)) == Keys(ms) && Ascending(SortMembers(ms))
    ensures forall k <- Keys(ms) :: Get(SortMembers(ms), k) == Sort(Get(ms, k))
  {
    if ms != [] {
      KeysOfFirst(ms);
      SortedMembers(ms[1..]);
      InsertPlaces(Member(ms[0].key, Sort(ms[0].value)), SortMembers(ms[1..]));
    }
  }

  lemma {:induction false} GetAt(ms: seq<Member>, i: nat)
    requires DistinctKeys(ms) && i < |ms|
    ensures ms[i].key in Keys(ms) && Get(ms, ms[i].key) == ms[i].value
  {
    assert ms[i] in ms;
    if i > 0 {
      assert ms[0].key != ms[i].key;
      KeysOfFirst(ms);
      GetAt(ms[1..], i - 1);
    }
  }

  lemma {:induction false} Contains(ms: seq<Member>, key: string) returns (i: nat)
    requires key in Keys(ms)
    ensures i < |ms| && ms[i].key == key && ms[i].value == Get(ms, key)
  {
    if ms[0].key == key {
      i := 0;
    } else {
      KeysOfFirst(ms);
      i := Contains(ms[1..], key);
      i := i + 1;
    }
  }

  // Values that differ only in key order have one canonical form...
  lemma {:induction false} SameSorts(a: Json, b: Json)
    requires WellFormed(a) && WellFormed(b) && Same(a, b)
    ensures Sort(a) == Sort(b)
    decreases a
  {
    match a
    case Array(items) =>
      forall i | 0 <= i < |items| ensures Sort(items[i]) == Sort(b.items[i]) { SameSorts(items[i], b.items[i]); }
    case Object(members) =>
      SortedMembers(members);
      SortedMembers(b.members);
      forall k <- Keys(members) ensures Get(SortMembers(members), k) == Get(SortMembers(b.members), k) {
        var i := Contains(members, k);
        var j := Contains(b.members, k);
        SameSorts(members[i].value, b.members[j].value);
      }
      AscendingIsUnique(SortMembers(members), SortMembers(b.members));
    case _ =>
  }

  // ...and a canonical form belongs to such values only.
  lemma {:induction false} SortsAreSame(a: Json, b: Json)
    requires WellFormed(a) && WellFormed(b) && Sort(a) == Sort(b)
    ensures Same(a, b)
    decreases a
  {
    match a
    case Array(items) =>
      forall i | 0 <= i < |items| ensures Same(items[i], b.items[i]) {
        assert Sort(a).items[i] == Sort(b).items[i];
        SortsAreSame(items[i], b.items[i]);
      }
    case Object(members) =>
      SortedMembers(members);
      SortedMembers(b.members);
      forall i | 0 <= i < |members|
        ensures members[i].key in Keys(b.members) && Same(members[i].value, Get(b.members, members[i].key))
      {
        GetAt(members, i);
        var j := Contains(b.members, members[i].key);
        SortsAreSame(members[i].value, b.members[j].value);
      }
    case _ =>
  }

  lemma SortDecidesSame(a: Json, b: Json)
    requires WellFormed(a) && WellFormed(b)
    ensures Sort(a) == Sort(b) <==> Same(a, b)
  {
    if Sort(a) == Sort(b) { SortsAreSame(a, b); }
    if Same(a, b) { SameSorts(a, b); }
  }

  // The canonical form is a well-formed value that differs from the input in key order only.
  lemma {:induction false} SortKeepsValue(v: Json)
    requires WellFormed(v)
    ensures WellFormed(Sort(v)) && Same(v, Sort(v))
  {
    match v
    case Array(items) =>
      forall i | 0 <= i < |items| ensures WellFormed(Sort(items[i])) && Same(items[i], Sort(items[i])) {
        SortKeepsValue(items[i]);
      }
    case Object(members) =>
      SortedMembers(members);
      forall i | 0 <= i < |members|
        ensures WellFormed(Sort(members[i].value)) && Same(members[i].value, Sort(members[i].value))
      {
        SortKeepsValue(members[i].value);
      }
      forall i | 0 <= i < |members|
        ensures members[i].key in Keys(members) && Same(members[i].value, Get(SortMembers(members), members[i].key))
      {
        GetAt(members, i);
      }
      SortedIsWellFormed(members);
    case _ =>
  }

  lemma SortedIsWellFormed(ms: seq<Member>)
    requires DistinctKeys(ms) && forall i | 0 <= i < |ms| :: WellFormed(Sort(ms[i].value))
    ensures WellFormed(Object(SortMembers(ms)))
  {
    SortedMembers(ms);
    var sorted := SortMembers(ms);
    forall i | 0 <= i < |sorted| ensures WellFormed(sorted[i].value) {
      GetAt(sorted, i);
      var j := Contains(ms, sorted[i].key);
    }
  }

  lemma SortIsIdempotent(v: Json)
    requires WellFormed(v)
    ensures Sort(Sort(v)) == Sort(v)
  {
    SortKeepsValue(v);
    SameSorts(v, Sort(v));
  }
}

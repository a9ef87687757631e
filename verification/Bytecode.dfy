// reconstructRuntimeBytecode (packages/config/src/deployment-evidence.ts): the 32-byte immutable slots of a
// compiled template are filled in place.
module Bytecode {
  import opened Options

  type Byte = x: int | 0 <= x < 256

  const SLOT := 32

  datatype Reference = Reference(start: int, length: int)

  datatype Immutable =
    | AddressValue(address: seq<Byte>)
    | WordValue(word: seq<Byte>)
    | Unreadable

  datatype Slot = Slot(start: int, length: int, word: seq<Byte>)

  datatype Fault = CountMismatch | BadValue | EmptyGroup | OutOfRange | Overlapping | NotZeroFilled

  // The 32 bytes of an immutable: an address stands behind twelve zeros, a word for itself.
  predicate Spells(value: Immutable, word: seq<Byte>) {
    && |word| == 32
    && match value
       case AddressValue(a) => |a| == 20 && word[12..] == a && forall i | 0 <= i < 12 :: word[i] == 0
       case WordValue(w) => word == w
       case Unreadable => false
  }

  predicate Readable(value: Immutable) {
    (value.AddressValue? && |value.address| == 20) || (value.WordValue? && |value.word| == 32)
  }

  // immutableWord: an address is padded on the left.
  function Word(value: Immutable): (word: Option<seq<Byte>>)
    ensures word.Some? ==> |word.value| == SLOT && Spells(value, word.value)
    ensures word.Some? <==> Readable(value)
  {
    match value
    case AddressValue(a) => if |a| == 20 then Some(seq(12, _ => 0) + a) else None
    case WordValue(w) => if |w| == SLOT then Some(w) else None
    case Unreadable => None
  }

  // ---- groups in ascending order of their ids ----

  ghost predicate IsLeast(s: set<nat>, m: nat) {
    m in s && forall x <- s :: m <= x
  }

  lemma LeastExists(s: set<nat>)
    requires s != {}
    ensures exists m: nat :: IsLeast(s, m)
  {
    var x :| x in s;
    if s - {x} == {} {
      assert s == {x};
      assert IsLeast(s, x);
    } else {
      LeastExists(s - {x});
      var m: nat :| IsLeast(s - {x}, m);
      assert IsLeast(s, if m <= x then m else x) by {
        forall y <- s ensures (if m <= x then m else x) <= y { assert y == x || y in s - {x}; }
      }
    }
  }

  function Least(s: set<nat>): (m: nat)
    requires s != {}
    ensures IsLeast(s, m)
  {
    LeastExists(s);
    var m: nat :| m in s && forall x <- s :: m <= x;
    m
  }

  function SortedKeys(s: set<nat>): (keys: seq<nat>)
    ensures |keys| == |s|
    ensures forall k :: k in keys <==> k in s
    ensures forall i, j | 0 <= i < j < |keys| :: keys[i] < keys[j]
  {
    if s == {} then [] else [Least(s)] + SortedKeys(s - {Least(s)})
  }

  // ---- what the result is ----

  ghost predicate Fits(template: seq<Byte>, slot: Slot) {
    && slot.length == SLOT
    && 0 <= slot.start && slot.start + SLOT <= |template|
    && forall p | slot.start <= p < slot.start + SLOT :: template[p] == 0
  }

  predicate Apart(a: Slot, b: Slot) {
    a.start + SLOT <= b.start || b.start + SLOT <= a.start
  }

  ghost predicate Acceptable(template: seq<Byte>, slots: seq<Slot>) {
    && (forall i | 0 <= i < |slots| :: Fits(template, slots[i]))
    && (forall i, j | 0 <= i < j < |slots| :: Apart(slots[i], slots[j]))
  }

  ghost predicate Covers(slots: seq<Slot>, p: int) {
    exists i | 0 <= i < |slots| :: slots[i].start <= p < slots[i].start + SLOT
  }

  ghost predicate HasWord(bytes: seq<Byte>, slot: Slot) {
    && 0 <= slot.start && slot.start + SLOT <= |bytes| && |slot.word| == SLOT
    && bytes[slot.start..slot.start + SLOT] == slot.word
  }

  // The template with each word in its slot, and nothing else changed.
  ghost predicate IsFilled(template: seq<Byte>, slots: seq<Slot>, bytes: seq<Byte>) {
    && |bytes| == |template|
    && (forall i | 0 <= i < |slots| :: HasWord(bytes, slots[i]))
    && (forall p | 0 <= p < |bytes| && !Covers(slots, p) :: bytes[p] == template[p])
  }

  function Tagged(references: seq<Reference>, word: seq<Byte>): seq<Slot> {
    seq(|references|, i requires 0 <= i < |references| => Slot(references[i].start, references[i].length, word))
  }

  function WordAt(values: seq<Immutable>, g: nat): seq<Byte> {
    if g < |values| && Word(values[g]).Some? then Word(values[g]).value else []
  }

  // The slots of the first n groups; group g, in ascending order of ids, takes the g-th value.
  function SlotsOf(keys: seq<nat>, references: map<nat, seq<Reference>>, values: seq<Immutable>, n: nat): seq<Slot>
    requires n <= |keys| && forall k <- keys :: k in references
  {
    if n == 0 then []
    else SlotsOf(keys, references, values, n - 1) + Tagged(references[keys[n - 1]], WordAt(values, n - 1))
  }

  function AllSlots(references: map<nat, seq<Reference>>, values: seq<Immutable>): seq<Slot> {
    SlotsOf(SortedKeys(references.Keys), references, values, |references|)
  }

  ghost predicate Layout(references: map<nat, seq<Reference>>, values: seq<Immutable>) {
    && |references| == |values|
    && (forall v <- values :: Word(v).Some?)
    && (forall k <- references :: references[k] != [])
  }

  // ---- the algorithm ----

  // Marks the offsets of one slot; an offset already marked is an overlap.
  method Occupy(occupied: set<int>, start: int) returns (clash: bool, marked: set<int>)
    ensures clash <==> exists p | start <= p < start + SLOT :: p in occupied
    ensures !clash ==> forall p :: p in marked <==> p in occupied || start <= p < start + SLOT
  {
    marked := occupied;
    for offset := start to start + SLOT
      invariant forall p :: p in marked <==> p in occupied || start <= p < offset
      invariant forall p | start <= p < offset :: p !in occupied
    {
      if offset in marked { return true, marked; }
      marked := marked + {offset};
    }
    clash := false;
  }

  method IsZero(bytes: array<Byte>, start: int) returns (zero: bool)
    requires 0 <= start && start + SLOT <= bytes.Length
    ensures zero <==> forall p | start <= p < start + SLOT :: bytes[p] == 0
  {
    for p := start to start + SLOT
      invariant forall q | start <= q < p :: bytes[q] == 0
    {
      if bytes[p] != 0 { return false; }
    }
    zero := true;
  }

  // bytes.splice(start, 32, ...word)
  method Splice(bytes: array<Byte>, start: int, word: seq<Byte>)
    requires 0 <= start && start + SLOT <= bytes.Length && |word| == SLOT
    modifies bytes
    ensures bytes[..] == old(bytes[..start]) + word + old(bytes[start + SLOT..])
  {
    for i := 0 to SLOT
      invariant forall p | 0 <= p < bytes.Length ::
                  bytes[p] == if start <= p < start + i then word[p - start] else old(bytes[p])
    {
      bytes[start + i] := word[i];
    }
    assert bytes[..] == old(bytes[..start]) + word + old(bytes[start + SLOT..]);
  }

  ghost predicate Marks(occupied: set<int>, slots: seq<Slot>) {
    forall p :: p in occupied <==> Covers(slots, p)
  }

  method PlaceSlot(bytes: array<Byte>, occupied: set<int>, slot: Slot, ghost template: seq<Byte>,
                   ghost placed: seq<Slot>)
    returns (fault: Option<Fault>, marked: set<int>)
    requires |slot.word| == SLOT
    requires Acceptable(template, placed) && IsFilled(template, placed, bytes[..]) && Marks(occupied, placed)
    modifies bytes
    ensures fault.None? <==> Acceptable(template, placed + [slot])
    ensures fault.None? ==> IsFilled(template, placed + [slot], bytes[..]) && Marks(marked, placed + [slot])
  {
    if slot.start < 0 || slot.length != SLOT || slot.start + slot.length > bytes.Length {
      assert (placed + [slot])[|placed|] == slot;
      return Some(OutOfRange), occupied;
    }
    var clash;
    clash, marked := Occupy(occupied, slot.start);
    if clash {
      ClashIsOverlap(template, placed, slot);
      return Some(Overlapping), marked;
    }
    assert forall p | slot.start <= p < slot.start + SLOT :: bytes[..][p] == template[p];
    var zero := IsZero(bytes, slot.start);
    if !zero {
      assert (placed + [slot])[|placed|] == slot;
      return Some(NotZeroFilled), marked;
    }
    ghost var before := bytes[..];
    Splice(bytes, slot.start, slot.word);
    OneMoreSlot(template, placed, slot, before, bytes[..]);
    CoversOneMore(placed, slot);
    return None, marked;
  }

  lemma CoversOneMore(placed: seq<Slot>, slot: Slot)
    ensures forall p :: Covers(placed + [slot], p) <==> Covers(placed, p) || slot.start <= p < slot.start + SLOT
  {
    forall p ensures Covers(placed + [slot], p) <==> Covers(placed, p) || slot.start <= p < slot.start + SLOT {
      if Covers(placed, p) {
        var i :| 0 <= i < |placed| && placed[i].start <= p < placed[i].start + SLOT;
        assert (placed + [slot])[i] == placed[i];
      }
      assert (placed + [slot])[|placed|] == slot;
    }
  }

  lemma ClashIsOverlap(template: seq<Byte>, placed: seq<Slot>, slot: Slot)
    requires exists p | slot.start <= p < slot.start + SLOT :: Covers(placed, p)
    ensures !Acceptable(template, placed + [slot])
  {
    var p :| slot.start <= p < slot.start + SLOT && Covers(placed, p);
    var i :| 0 <= i < |placed| && placed[i].start <= p < placed[i].start + SLOT;
    assert !Apart((placed + [slot])[i], (placed + [slot])[|placed|]);
  }

  lemma OneMoreSlot(template: seq<Byte>, placed: seq<Slot>, slot: Slot, before: seq<Byte>, after: seq<Byte>)
    requires Acceptable(template, placed) && IsFilled(template, placed, before)
    requires |slot.word| == SLOT && Fits(template, slot)
    requires forall p | slot.start <= p < slot.start + SLOT :: !Covers(placed, p)
    requires after == before[..slot.start] + slot.word + before[slot.start + SLOT..]
    ensures Acceptable(template, placed + [slot]) && IsFilled(template, placed + [slot], after)
  {
    forall i | 0 <= i < |placed| ensures Apart(placed[i], slot) && HasWord(after, placed[i]) {
      assert HasWord(before, placed[i]);
      if !Apart(placed[i], slot) {
        var p := if placed[i].start <= slot.start then slot.start else placed[i].start;
        assert Covers(placed, p);
      }
      assert after[placed[i].start..placed[i].start + SLOT] == before[placed[i].start..placed[i].start + SLOT];
    }
    assert HasWord(after, slot);
    CoversOneMore(placed, slot);
  }

  method PlaceGroup(bytes: array<Byte>, occupied: set<int>, references: seq<Reference>, word: seq<Byte>,
                    ghost template: seq<Byte>, ghost placed: seq<Slot>)
    returns (fault: Option<Fault>, marked: set<int>)
    requires |word| == SLOT
    requires Acceptable(template, placed) && IsFilled(template, placed, bytes[..]) && Marks(occupied, placed)
    modifies bytes
    ensures fault.None? <==> Acceptable(template, placed + Tagged(references, word))
    ensures fault.None? ==> IsFilled(template, placed + Tagged(references, word), bytes[..])
                            && Marks(marked, placed + Tagged(references, word))
  {
    marked := occupied;
    ghost var all := placed + Tagged(references, word);
    for r := 0 to |references|
      invariant Acceptable(template, all[..|placed| + r])
      invariant IsFilled(template, all[..|placed| + r], bytes[..]) && Marks(marked, all[..|placed| + r])
    {
      var slot := Slot(references[r].start, references[r].length, word);
      assert all[..|placed| + r + 1] == all[..|placed| + r] + [slot];
      fault, marked := PlaceSlot(bytes, marked, slot, template, all[..|placed| + r]);
      if fault.Some? {
        if Acceptable(template, all) { PrefixAcceptable(template, all[..|placed| + r + 1], all); }
        return;
      }
    }
    assert all[..|placed| + |references|] == all;
    fault := None;
  }

  lemma PrefixAcceptable(template: seq<Byte>, part: seq<Slot>, slots: seq<Slot>)
    requires part <= slots && Acceptable(template, slots)
    ensures Acceptable(template, part)
  {
    assert forall i | 0 <= i < |part| :: part[i] == slots[i];
  }

  lemma {:induction false} SlotsPrefix(keys: seq<nat>, references: map<nat, seq<Reference>>, values: seq<Immutable>,
                                       m: nat, n: nat)
    requires m <= n <= |keys| && forall k <- keys :: k in references
    ensures SlotsOf(keys, references, values, m) <= SlotsOf(keys, references, values, n)
  {
    if m < n { SlotsPrefix(keys, references, values, m, n - 1); }
  }

  ghost predicate AllReadable(keys: seq<nat>, references: map<nat, seq<Reference>>, values: seq<Immutable>, n: nat) {
    && n <= |keys| == |values|
    && (forall k <- keys :: k in references)
    && (forall h | 0 <= h < n :: Word(values[h]).Some? && references[keys[h]] != [])
  }

  lemma LayoutIsReadable(references: map<nat, seq<Reference>>, values: seq<Immutable>, keys: seq<nat>)
    requires |references| == |keys| == |values| && forall k :: k in keys <==> k in references
    ensures Layout(references, values) <==> AllReadable(keys, references, values, |keys|)
  {
    if AllReadable(keys, references, values, |keys|) {
      forall k <- references ensures references[k] != [] { assert k in keys; }
    }
    if Layout(references, values) {
      forall h | 0 <= h < |keys| ensures Word(values[h]).Some? && references[keys[h]] != [] { assert keys[h] in keys; }
    }
  }

  lemma FewerGroups(template: seq<Byte>, keys: seq<nat>, references: map<nat, seq<Reference>>, values: seq<Immutable>,
                    n: nat)
    requires n <= |keys| && (forall k <- keys :: k in references)
    requires Acceptable(template, SlotsOf(keys, references, values, |keys|))
    ensures Acceptable(template, SlotsOf(keys, references, values, n))
  {
    SlotsPrefix(keys, references, values, n, |keys|);
    PrefixAcceptable(template, SlotsOf(keys, references, values, n), SlotsOf(keys, references, values, |keys|));
  }

  // One turn of the outer loop.
  method PlaceNext(bytes: array<Byte>, occupied: set<int>, keys: seq<nat>, references: map<nat, seq<Reference>>,
                   values: seq<Immutable>, g: nat, ghost template: seq<Byte>, ghost placed: seq<Slot>)
    returns (fault: Option<Fault>, marked: set<int>)
    requires g < |keys| && AllReadable(keys, references, values, g) && placed == SlotsOf(keys, references, values, g)
    requires Acceptable(template, placed) && IsFilled(template, placed, bytes[..]) && Marks(occupied, placed)
    modifies bytes
    ensures fault.None? ==> AllReadable(keys, references, values, g + 1)
    ensures fault.None? ==> Acceptable(template, SlotsOf(keys, references, values, g + 1))
    ensures fault.None? ==> IsFilled(template, SlotsOf(keys, references, values, g + 1), bytes[..])
    ensures fault.None? ==> Marks(marked, SlotsOf(keys, references, values, g + 1))
    ensures fault.Some? ==> !AllReadable(keys, references, values, |keys|)
                            || !Acceptable(template, SlotsOf(keys, references, values, |keys|))
  {
    var word := Word(values[g]);
    if word.None? { return Some(BadValue), occupied; }
    if references[keys[g]] == [] { return Some(EmptyGroup), occupied; }
    fault, marked := PlaceGroup(bytes, occupied, references[keys[g]], word.value, template, placed);
    if fault.Some? && Acceptable(template, SlotsOf(keys, references, values, |keys|)) {
      FewerGroups(template, keys, references, values, g + 1);
    }
  }

  method FillGroups(template: seq<Byte>, keys: seq<nat>, references: map<nat, seq<Reference>>, values: seq<Immutable>)
    returns (result: Result<seq<Byte>, Fault>)
    requires |keys| == |values| && forall k <- keys :: k in references
    ensures result.Ok? <==> AllReadable(keys, references, values, |keys|)
                            && Acceptable(template, SlotsOf(keys, references, values, |keys|))
    ensures result.Ok? ==> IsFilled(template, SlotsOf(keys, references, values, |keys|), result.value)
  {
    var bytes := new Byte[|template|](i requires 0 <= i < |template| => template[i]);
    assert bytes[..] == template;
    var occupied: set<int> := {};
    for g := 0 to |keys|
      invariant AllReadable(keys, references, values, g)
      invariant Acceptable(template, SlotsOf(keys, references, values, g))
      invariant IsFilled(template, SlotsOf(keys, references, values, g), bytes[..])
      invariant Marks(occupied, SlotsOf(keys, references, values, g))
    {
      var fault;
      fault, occupied := PlaceNext(bytes, occupied, keys, references, values, g, template,
                                   SlotsOf(keys, references, values, g));
      if fault.Some? { return Err(fault.value); }
    }
    return Ok(bytes[..]);
  }

  method ReconstructRuntimeBytecode(template: seq<Byte>, references: map<nat, seq<Reference>>, values: seq<Immutable>)
    returns (result: Result<seq<Byte>, Fault>)
    ensures result.Ok? <==> Layout(references, values) && Acceptable(template, AllSlots(references, values))
    ensures result.Ok? ==> IsFilled(template, AllSlots(references, values), result.value)
    ensures result.Ok? <==>
            && |references| == |values| && (forall v <- values :: Readable(v))
            && (forall k <- references :: references[k] != [])
            && AllNameZeros(template, SortedKeys(references.Keys), references)
            && NoneOverlap(SortedKeys(references.Keys), references)
    ensures result.Ok? ==> Reconstructs(template, SortedKeys(references.Keys), references, values, result.value)
  {
    var keys := SortedKeys(references.Keys);
    AcceptedExactly(template, keys, references, values, AllSlots(references, values));
    if |keys| != |values| { return Err(CountMismatch); }
    LayoutIsReadable(references, values, keys);
    result := FillGroups(template, keys, references, values);
    if result.Ok? {
      FilledReconstructs(template, keys, references, values, AllSlots(references, values), result.value);
    }
  }

  // ---- what follows from the result ----

  // Zeroing the slots gives the template back.
  lemma ZeroingRestores(template: seq<Byte>, slots: seq<Slot>, bytes: seq<Byte>, zeroed: seq<Byte>)
    requires Acceptable(template, slots) && IsFilled(template, slots, bytes)
    requires |zeroed| == |bytes|
    requires forall p | 0 <= p < |bytes| :: zeroed[p] == if Covers(slots, p) then 0 else bytes[p]
    ensures zeroed == template
  {
    forall p | 0 <= p < |template| ensures zeroed[p] == template[p] {
      if Covers(slots, p) {
        var i :| 0 <= i < |slots| && slots[i].start <= p < slots[i].start + SLOT;
        assert Fits(template, slots[i]);
      }
    }
  }

  // The template and the slots determine the result.
  lemma FilledIsUnique(template: seq<Byte>, slots: seq<Slot>, a: seq<Byte>, b: seq<Byte>)
    requires IsFilled(template, slots, a) && IsFilled(template, slots, b)
    ensures a == b
  {
    forall p | 0 <= p < |template| ensures a[p] == b[p] {
      if Covers(slots, p) {
        var i :| 0 <= i < |slots| && slots[i].start <= p < slots[i].start + SLOT;
        var start := slots[i].start;
        assert HasWord(a, slots[i]) && HasWord(b, slots[i]);
        assert a[p] == a[start..start + SLOT][p - start] == b[start..start + SLOT][p - start] == b[p];
      }
    }
  }

  // ---- the result in terms of references and values ----

  // Reference r of group g; groups are numbered in the ascending order of their ids.
  ghost predicate InGroup(keys: seq<nat>, references: map<nat, seq<Reference>>, g: nat, r: nat) {
    g < |keys| && keys[g] in references && r < |references[keys[g]]|
  }

  ghost function At(keys: seq<nat>, references: map<nat, seq<Reference>>, g: nat, r: nat): Reference
    requires InGroup(keys, references, g, r)
  {
    references[keys[g]][r]
  }

  // The position of its slot.
  ghost function Position(keys: seq<nat>, references: map<nat, seq<Reference>>, values: seq<Immutable>, g: nat, r: nat)
    : nat
    requires InGroup(keys, references, g, r) && forall k <- keys :: k in references
  {
    |SlotsOf(keys, references, values, g)| + r
  }

  lemma {:induction false} SlotAt(keys: seq<nat>, references: map<nat, seq<Reference>>, values: seq<Immutable>, g: nat,
                                  r: nat, n: nat)
    requires InGroup(keys, references, g, r) && g < n <= |keys| && forall k <- keys :: k in references
    ensures var i, slots := Position(keys, references, values, g, r), SlotsOf(keys, references, values, n);
            && i < |slots| && slots[i].start == At(keys, references, g, r).start
            && slots[i].length == At(keys, references, g, r).length && slots[i].word == WordAt(values, g)
  {
    if g < n - 1 { SlotAt(keys, references, values, g, r, n - 1); }
  }

  lemma {:induction false} SlotFrom(keys: seq<nat>, references: map<nat, seq<Reference>>, values: seq<Immutable>,
                                    i: nat, n: nat)
    returns (g: nat, r: nat)
    requires n <= |keys| && (forall k <- keys :: k in references) && i < |SlotsOf(keys, references, values, n)|
    ensures g < n && InGroup(keys, references, g, r) && i == Position(keys, references, values, g, r)
  {
    if i < |SlotsOf(keys, references, values, n - 1)| {
      g, r := SlotFrom(keys, references, values, i, n - 1);
    } else {
      g, r := n - 1, i - |SlotsOf(keys, references, values, n - 1)|;
    }
  }

  lemma {:induction false} SlotsGrow(keys: seq<nat>, references: map<nat, seq<Reference>>, values: seq<Immutable>,
                                     g: nat, h: nat)
    requires g < h <= |keys| && forall k <- keys :: k in references
    ensures |SlotsOf(keys, references, values, g)| + |references[keys[g]]| <= |SlotsOf(keys, references, values, h)|
  {
    if g < h - 1 { SlotsGrow(keys, references, values, g, h - 1); }
  }

  lemma PositionsDiffer(keys: seq<nat>, references: map<nat, seq<Reference>>, values: seq<Immutable>, g: nat, r: nat,
                        h: nat, q: nat)
    requires InGroup(keys, references, g, r) && InGroup(keys, references, h, q) && (g != h || r != q)
    requires forall k <- keys :: k in references
    ensures Position(keys, references, values, g, r) != Position(keys, references, values, h, q)
  {
    if g < h { SlotsGrow(keys, references, values, g, h); }
    if h < g { SlotsGrow(keys, references, values, h, g); }
  }

  // A reference names 32 zero bytes inside the template.
  ghost predicate NamesZeros(template: seq<Byte>, reference: Reference) {
    && reference.length == 32 && 0 <= reference.start && reference.start + 32 <= |template|
    && forall p | reference.start <= p < reference.start + 32 :: template[p] == 0
  }

  ghost predicate AllNameZeros(template: seq<Byte>, keys: seq<nat>, references: map<nat, seq<Reference>>) {
    forall g: nat, r: nat | InGroup(keys, references, g, r) :: NamesZeros(template, At(keys, references, g, r))
  }

  predicate StartApart(a: Reference, b: Reference) {
    a.start + 32 <= b.start || b.start + 32 <= a.start
  }

  // No two references overlap, in one group or across groups.
  ghost predicate NoneOverlap(keys: seq<nat>, references: map<nat, seq<Reference>>) {
    forall g: nat, r: nat, h: nat, q: nat
      | InGroup(keys, references, g, r) && InGroup(keys, references, h, q) && (g != h || r != q) ::
      StartApart(At(keys, references, g, r), At(keys, references, h, q))
  }

  ghost predicate Lists(keys: seq<nat>, references: map<nat, seq<Reference>>, values: seq<Immutable>,
                        slots: seq<Slot>)
  {
    (forall k <- keys :: k in references) && slots == SlotsOf(keys, references, values, |keys|)
  }

  lemma AcceptableNamesZeros(template: seq<Byte>, keys: seq<nat>, references: map<nat, seq<Reference>>,
                             values: seq<Immutable>, slots: seq<Slot>, g: nat, r: nat)
    requires Lists(keys, references, values, slots) && Acceptable(template, slots) && InGroup(keys, references, g, r)
    ensures NamesZeros(template, At(keys, references, g, r))
  {
    SlotAt(keys, references, values, g, r, |keys|);
    assert Fits(template, slots[Position(keys, references, values, g, r)]);
  }

  lemma ReferencesAreApart(template: seq<Byte>, keys: seq<nat>, references: map<nat, seq<Reference>>,
                           values: seq<Immutable>, slots: seq<Slot>, g: nat, r: nat, h: nat, q: nat)
    requires Lists(keys, references, values, slots) && Acceptable(template, slots)
    requires InGroup(keys, references, g, r) && InGroup(keys, references, h, q) && (g != h || r != q)
    ensures StartApart(At(keys, references, g, r), At(keys, references, h, q))
  {
    var i, j := Position(keys, references, values, g, r), Position(keys, references, values, h, q);
    PositionsDiffer(keys, references, values, g, r, h, q);
    SlotAt(keys, references, values, g, r, |keys|);
    SlotAt(keys, references, values, h, q, |keys|);
    assert if i < j then Apart(slots[i], slots[j]) else Apart(slots[j], slots[i]);
  }

  lemma SlotFits(template: seq<Byte>, keys: seq<nat>, references: map<nat, seq<Reference>>, values: seq<Immutable>,
                 slots: seq<Slot>, i: nat)
    requires Lists(keys, references, values, slots) && AllNameZeros(template, keys, references) && i < |slots|
    ensures Fits(template, slots[i])
  {
    var g, r := SlotFrom(keys, references, values, i, |keys|);
    SlotAt(keys, references, values, g, r, |keys|);
    assert NamesZeros(template, At(keys, references, g, r));
  }

  lemma SlotsAreApart(keys: seq<nat>, references: map<nat, seq<Reference>>, values: seq<Immutable>, slots: seq<Slot>,
                      i: nat, j: nat)
    requires Lists(keys, references, values, slots) && NoneOverlap(keys, references) && i < j < |slots|
    ensures Apart(slots[i], slots[j])
  {
    var g, r := SlotFrom(keys, references, values, i, |keys|);
    var h, q := SlotFrom(keys, references, values, j, |keys|);
    SlotAt(keys, references, values, g, r, |keys|);
    SlotAt(keys, references, values, h, q, |keys|);
    assert StartApart(At(keys, references, g, r), At(keys, references, h, q));
  }

  // What is accepted, said of the references alone.
  lemma AcceptedExactly(template: seq<Byte>, keys: seq<nat>, references: map<nat, seq<Reference>>,
                        values: seq<Immutable>, slots: seq<Slot>)
    requires Lists(keys, references, values, slots)
    ensures Acceptable(template, slots) <==> AllNameZeros(template, keys, references) && NoneOverlap(keys, references)
  {
    if Acceptable(template, slots) {
      forall g: nat, r: nat | InGroup(keys, references, g, r) ensures NamesZeros(template, At(keys, references, g, r)) {
        AcceptableNamesZeros(template, keys, references, values, slots, g, r);
      }
      forall g: nat, r: nat, h: nat, q: nat
        | InGroup(keys, references, g, r) && InGroup(keys, references, h, q) && (g != h || r != q)
        ensures StartApart(At(keys, references, g, r), At(keys, references, h, q))
      {
        ReferencesAreApart(template, keys, references, values, slots, g, r, h, q);
      }
    }
    if AllNameZeros(template, keys, references) && NoneOverlap(keys, references) {
      forall i | 0 <= i < |slots| ensures Fits(template, slots[i]) {
        SlotFits(template, keys, references, values, slots, i);
      }
      forall i, j | 0 <= i < j < |slots| ensures Apart(slots[i], slots[j]) {
        SlotsAreApart(keys, references, values, slots, i, j);
      }
    }
  }

  // The 32 bytes from start on are those of the value.
  ghost predicate HoldsAt(bytes: seq<Byte>, start: int, value: Immutable) {
    && 0 <= start && start + 32 <= |bytes|
    && match value
       case AddressValue(a) =>
         bytes[start + 12..start + 32] == a && forall p | start <= p < start + 12 :: bytes[p] == 0
       case WordValue(w) => bytes[start..start + 32] == w
       case Unreadable => false
  }

  lemma WordIsHeld(bytes: seq<Byte>, start: int, value: Immutable)
    requires 0 <= start && start + 32 <= |bytes| && Spells(value, bytes[start..start + 32])
    ensures HoldsAt(bytes, start, value)
  {
    var word := bytes[start..start + 32];
    assert bytes[start + 12..start + 32] == word[12..];
    forall p | start <= p < start + 12 ensures bytes[p] == word[p - start] {}
  }

  ghost predicate InReference(keys: seq<nat>, references: map<nat, seq<Reference>>, p: int) {
    exists g: nat, r: nat :: InGroup(keys, references, g, r)
                   && At(keys, references, g, r).start <= p < At(keys, references, g, r).start + 32
  }

  // Every reference of the g-th group holds the g-th value, and every other byte is the template's.
  ghost predicate Reconstructs(template: seq<Byte>, keys: seq<nat>, references: map<nat, seq<Reference>>,
                               values: seq<Immutable>, bytes: seq<Byte>)
  {
    && |bytes| == |template|
    && (forall g: nat, r: nat | InGroup(keys, references, g, r) ::
          g < |values| && HoldsAt(bytes, At(keys, references, g, r).start, values[g]))
    && (forall p | 0 <= p < |bytes| && !InReference(keys, references, p) :: bytes[p] == template[p])
  }

  lemma FilledHolds(template: seq<Byte>, keys: seq<nat>, references: map<nat, seq<Reference>>, values: seq<Immutable>,
                    slots: seq<Slot>, bytes: seq<Byte>, g: nat, r: nat)
    requires Lists(keys, references, values, slots) && |keys| == |values| && forall v <- values :: Word(v).Some?
    requires IsFilled(template, slots, bytes) && InGroup(keys, references, g, r)
    ensures HoldsAt(bytes, At(keys, references, g, r).start, values[g])
  {
    SlotAt(keys, references, values, g, r, |keys|);
    var slot := slots[Position(keys, references, values, g, r)];
    assert HasWord(bytes, slot) && values[g] in values;
    WordIsHeld(bytes, slot.start, values[g]);
  }

  lemma CoveredIsReferenced(keys: seq<nat>, references: map<nat, seq<Reference>>, values: seq<Immutable>,
                            slots: seq<Slot>, p: int)
    requires Lists(keys, references, values, slots) && Covers(slots, p)
    ensures InReference(keys, references, p)
  {
    var i :| 0 <= i < |slots| && slots[i].start <= p < slots[i].start + SLOT;
    var g, r := SlotFrom(keys, references, values, i, |keys|);
    SlotAt(keys, references, values, g, r, |keys|);
  }

  lemma FilledReconstructs(template: seq<Byte>, keys: seq<nat>, references: map<nat, seq<Reference>>,
                           values: seq<Immutable>, slots: seq<Slot>, bytes: seq<Byte>)
    requires Lists(keys, references, values, slots) && |keys| == |values| && forall v <- values :: Word(v).Some?
    requires IsFilled(template, slots, bytes)
    ensures Reconstructs(template, keys, references, values, bytes)
  {
    forall g: nat, r: nat | InGroup(keys, references, g, r)
      ensures HoldsAt(bytes, At(keys, references, g, r).start, values[g])
    {
      FilledHolds(template, keys, references, values, slots, bytes, g, r);
    }
    forall p | 0 <= p < |bytes| && !InReference(keys, references, p) ensures bytes[p] == template[p] {
      if Covers(slots, p) { CoveredIsReferenced(keys, references, values, slots, p); }
    }
  }

  // The references of every group, as multisets.
  ghost predicate SameReferences(a: map<nat, seq<Reference>>, b: map<nat, seq<Reference>>) {
    a.Keys == b.Keys && forall k <- a :: multiset(a[k]) == multiset(b[k])
  }

  lemma {:induction false} TaggedCount(references: seq<Reference>, word: seq<Byte>, slot: Slot)
    ensures multiset(Tagged(references, word))[slot]
            == if slot.word == word then multiset(references)[Reference(slot.start, slot.length)] else 0
  {
    if references != [] {
      var last := |references| - 1;
      TaggedCount(references[..last], word, slot);
      assert references == references[..last] + [references[last]];
      assert Tagged(references, word)
          == Tagged(references[..last], word) + [Slot(references[last].start, references[last].length, word)];
    }
  }

  lemma TaggedAsMultiset(a: seq<Reference>, b: seq<Reference>, word: seq<Byte>)
    requires multiset(a) == multiset(b)
    ensures multiset(Tagged(a, word)) == multiset(Tagged(b, word))
  {
    forall slot ensures multiset(Tagged(a, word))[slot] == multiset(Tagged(b, word))[slot] {
      TaggedCount(a, word, slot);
      TaggedCount(b, word, slot);
    }
  }

  lemma {:induction false} SlotsAsMultiset(keys: seq<nat>, a: map<nat, seq<Reference>>, b: map<nat, seq<Reference>>,
                                           values: seq<Immutable>, n: nat)
    requires SameReferences(a, b) && n <= |keys| && forall k <- keys :: k in a
    ensures multiset(SlotsOf(keys, a, values, n)) == multiset(SlotsOf(keys, b, values, n))
  {
    if n > 0 {
      SlotsAsMultiset(keys, a, b, values, n - 1);
      TaggedAsMultiset(a[keys[n - 1]], b[keys[n - 1]], WordAt(values, n - 1));
    }
  }

  lemma {:induction false} TwiceAt<T>(s: seq<T>, x: T)
    requires multiset(s)[x] >= 2
    ensures exists i, j | 0 <= i < j < |s| :: s[i] == x == s[j]
  {
    var last := |s| - 1;
    assert s == s[..last] + [s[last]];
    if s[last] != x || multiset(s[..last])[x] >= 2 {
      TwiceAt(s[..last], x);
      var i, j :| 0 <= i < j < last && s[..last][i] == x == s[..last][j];
      assert s[i] == x == s[j];
    } else {
      assert x in multiset(s[..last]);
      var i :| 0 <= i < last && s[i] == x;
      assert s[i] == x == s[last];
    }
  }

  lemma TwiceCounts<T>(s: seq<T>, i: nat, j: nat)
    requires i < j < |s| && s[i] == s[j]
    ensures multiset(s)[s[i]] >= 2
  {
    assert s == s[..j] + [s[j]] + s[j + 1..];
    assert s[i] in s[..j];
  }

  lemma AcceptableAsMultiset(template: seq<Byte>, a: seq<Slot>, b: seq<Slot>)
    requires multiset(a) == multiset(b) && Acceptable(template, a)
    ensures Acceptable(template, b)
  {
    forall i | 0 <= i < |b| ensures b[i] in a { assert b[i] in multiset(b); }
    forall i, j | 0 <= i < j < |b| ensures Apart(b[i], b[j]) {
      if b[i] == b[j] {
        TwiceCounts(b, i, j);
        TwiceAt(a, b[i]);
      } else {
        var k, l :| 0 <= k < |a| && a[k] == b[i] && 0 <= l < |a| && a[l] == b[j];
      }
    }
  }

  lemma CoversAsMultiset(a: seq<Slot>, b: seq<Slot>, p: int)
    requires multiset(a) == multiset(b) && Covers(a, p)
    ensures Covers(b, p)
  {
    var i :| 0 <= i < |a| && a[i].start <= p < a[i].start + SLOT;
    assert a[i] in multiset(a);
  }

  lemma FilledAsMultiset(template: seq<Byte>, a: seq<Slot>, b: seq<Slot>, bytes: seq<Byte>)
    requires multiset(a) == multiset(b) && IsFilled(template, a, bytes)
    ensures IsFilled(template, b, bytes)
  {
    forall i | 0 <= i < |b| ensures b[i] in a { assert b[i] in multiset(b); }
    forall p | Covers(a, p) ensures Covers(b, p) { CoversAsMultiset(a, b, p); }
  }

  // The order of the references inside a group makes no difference: neither to acceptance nor to the result.
  lemma ReferenceOrderIrrelevant(template: seq<Byte>, a: map<nat, seq<Reference>>, b: map<nat, seq<Reference>>,
                                 values: seq<Immutable>, bytes: seq<Byte>)
    requires SameReferences(a, b) && Layout(a, values) && Acceptable(template, AllSlots(a, values))
    ensures Layout(b, values) && Acceptable(template, AllSlots(b, values))
    ensures IsFilled(template, AllSlots(a, values), bytes) ==> IsFilled(template, AllSlots(b, values), bytes)
  {
    LayoutStays(a, b, values);
    SlotsAsMultiset(SortedKeys(a.Keys), a, b, values, |a|);
    AcceptableAsMultiset(template, AllSlots(a, values), AllSlots(b, values));
    if IsFilled(template, AllSlots(a, values), bytes) {
      FilledAsMultiset(template, AllSlots(a, values), AllSlots(b, values), bytes);
    }
  }

  lemma LayoutStays(a: map<nat, seq<Reference>>, b: map<nat, seq<Reference>>, values: seq<Immutable>)
    requires SameReferences(a, b) && Layout(a, values)
    ensures Layout(b, values) && |a| == |b|
  {
    assert |a| == |a.Keys| == |b.Keys| == |b|;
    forall k <- b ensures b[k] != [] { assert |multiset(a[k])| == |a[k]| && |multiset(b[k])| == |b[k]|; }
  }
}

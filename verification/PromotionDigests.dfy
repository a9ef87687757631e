// The two promotion digests of a deployment manifest (packages/config/src/manifest.ts). The hash of the
// printed JSON is an arbitrary function of the value; where it matters it is taken to be injective.
module PromotionDigests {
  import opened Options
  import opened Permits
  import opened SemanticJson

  const EVIDENCE := "activationEvidence"
  const LIVE := "productLive"
  const BLOCK := "verifiedAtBlock"
  const ARTIFACTS := "artifacts"

  const ARTIFACT_KEYS := [
    "deploymentReceipts", "constructorWiring", "governanceRoles", "treasuryControls", "signerPolicy",
    "releaseAttestation", "fundedEndToEnd", "operationsDrill"
  ]

  const BLANK_ARTIFACT := Object([Member("url", Null), Member("sha256", Null)])

  // object[key] = value: in place when the key is there, else at the end.
  function Put(ms: seq<Member>, key: string, value: Json): seq<Member> {
    if ms == [] then [Member(key, value)]
    else if ms[0].key == key then [Member(key, value)] + ms[1..]
    else [ms[0]] + Put(ms[1..], key, value)
  }

  function PutEach(ms: seq<Member>, keys: seq<string>, value: Json): seq<Member>
    decreases |keys|
  {
    if keys == [] then ms else PutEach(Put(ms, keys[0], value), keys[1..], value)
  }

  predicate HasObject(ms: seq<Member>, key: string) {
    key in Keys(ms) && Get(ms, key).Object?
  }

  // The shape that manifest validation demands of the fields the digests touch.
  ghost predicate IsManifest(m: Json) {
    && WellFormed(m) && m.Object? && HasObject(m.members, EVIDENCE)
    && LIVE in Keys(Evidence(m)) && BLOCK in Keys(Evidence(m))
    && HasObject(Evidence(m), ARTIFACTS)
    && Keys(Artifacts(m)) == (set k <- ARTIFACT_KEYS)
  }

  function Evidence(m: Json): seq<Member>
    requires m.Object? && HasObject(m.members, EVIDENCE)
  {
    Get(m.members, EVIDENCE).members
  }

  function Artifacts(m: Json): seq<Member>
    requires m.Object? && HasObject(m.members, EVIDENCE) && HasObject(Evidence(m), ARTIFACTS)
  {
    Get(Evidence(m), ARTIFACTS).members
  }

  function WithEvidence(m: Json, evidence: seq<Member>): Json
    requires m.Object?
  {
    Object(Put(m.members, EVIDENCE, Object(evidence)))
  }

  function Blanked(m: Json): Json
    requires m.Object? && HasObject(m.members, EVIDENCE) && HasObject(Evidence(m), ARTIFACTS)
  {
    Object(PutEach(Artifacts(m), ARTIFACT_KEYS, BLANK_ARTIFACT))
  }

  // What promotionSubjectDigest hashes.
  function Subject(m: Json): Json
    requires m.Object? && HasObject(m.members, EVIDENCE) && HasObject(Evidence(m), ARTIFACTS)
  {
    WithEvidence(m, Put(Evidence(m), ARTIFACTS, Blanked(m)))
  }

  function TargetEvidence(m: Json): seq<Member>
    requires m.Object? && HasObject(m.members, EVIDENCE) && HasObject(Evidence(m), ARTIFACTS)
  {
    Put(Put(Put(Evidence(m), LIVE, Bool(true)), BLOCK, Null), ARTIFACTS, Blanked(m))
  }

  // What promotionExecutionTargetDigest hashes, before it is sorted.
  function Target(m: Json): Json
    requires m.Object? && HasObject(m.members, EVIDENCE) && HasObject(Evidence(m), ARTIFACTS)
  {
    WithEvidence(m, TargetEvidence(m))
  }

  ghost predicate Injective(digest: Json -> Hash) {
    forall a, b :: digest(a) == digest(b) ==> a == b
  }

  ghost function SubjectDigest(digest: Json -> Hash, m: Json): Hash
    requires IsManifest(m)
  {
    digest(Subject(m))
  }

  ghost function ExecutionTargetDigest(digest: Json -> Hash, m: Json): Hash
    requires IsManifest(m)
  {
    digest(Sort(Target(m)))
  }

  // ---- assignment ----

  lemma {:induction false} PutSets(ms: seq<Member>, key: string, value: Json)
    requires DistinctKeys(ms)
    ensures DistinctKeys(Put(ms, key, value)) && Keys(Put(ms, key, value)) == Keys(ms) + {key}
    ensures forall k <- Keys(Put(ms, key, value)) ::
            Get(Put(ms, key, value), k) == if k == key then value else Get(ms, k)
  {
    if ms == [] {
      KeysOfFirst(Put(ms, key, value));
    } else if ms[0].key == key {
      KeysOfFirst(ms);
      PutFirst(ms, value);
    } else {
      KeysOfFirst(ms);
      PutSets(ms[1..], key, value);
      FrontIsDistinct(ms[0], Put(ms[1..], key, value));
      KeysOfFirst(Put(ms, key, value));
      assert Put(ms, key, value)[1..] == Put(ms[1..], key, value);
    }
  }

  lemma PutFirst(ms: seq<Member>, value: Json)
    requires ms != [] && DistinctKeys(ms)
    ensures var r := Put(ms, ms[0].key, value);
            && DistinctKeys(r) && Keys(r) == Keys(ms)
            && forall k <- Keys(r) :: Get(r, k) == if k == ms[0].key then value else Get(ms, k)
  {
    var r := Put(ms, ms[0].key, value);
    KeysOfFirst(ms);
    KeysOfFirst(r);
    assert r[1..] == ms[1..];
  }

  lemma FrontIsDistinct(m: Member, ms: seq<Member>)
    requires DistinctKeys(ms) && m.key !in Keys(ms)
    ensures DistinctKeys([m] + ms)
  {
    forall j | 0 <= j < |ms| ensures ms[j].key != m.key { assert ms[j].key in Keys(ms); }
  }

  lemma {:induction false} PutEachSets(ms: seq<Member>, keys: seq<string>, value: Json)
    requires DistinctKeys(ms) && forall k <- keys :: k in Keys(ms)
    ensures DistinctKeys(PutEach(ms, keys, value)) && Keys(PutEach(ms, keys, value)) == Keys(ms)
    ensures forall k <- Keys(ms) :: Get(PutEach(ms, keys, value), k) == if k in keys then value else Get(ms, k)
    decreases |keys|
  {
    if keys != [] {
      PutSets(ms, keys[0], value);
      PutEachSets(Put(ms, keys[0], value), keys[1..], value);
      assert forall k :: k in keys <==> k == keys[0] || k in keys[1..];
    }
  }

  // ---- objects as maps ----

  ghost predicate SameAt(a: seq<Member>, b: seq<Member>, key: string) {
    key in Keys(a) && key in Keys(b) && Same(Get(a, key), Get(b, key))
  }

  lemma SameObjects(a: seq<Member>, b: seq<Member>)
    requires DistinctKeys(a) && DistinctKeys(b)
    ensures Same(Object(a), Object(b)) <==> Keys(a) == Keys(b) && forall k <- Keys(a) :: SameAt(a, b, k)
  {
    if Same(Object(a), Object(b)) {
      forall k <- Keys(a) ensures SameAt(a, b, k) { var i := Contains(a, k); }
    }
    if Keys(a) == Keys(b) && forall k <- Keys(a) :: SameAt(a, b, k) {
      forall i | 0 <= i < |a| ensures a[i].key in Keys(b) && Same(a[i].value, Get(b, a[i].key)) {
        GetAt(a, i);
        assert SameAt(a, b, a[i].key);
      }
    }
  }

  lemma PartsAreWellFormed(ms: seq<Member>, key: string)
    requires WellFormed(Object(ms)) && key in Keys(ms)
    ensures WellFormed(Get(ms, key))
  {
    var i := Contains(ms, key);
  }

  lemma PutIsWellFormed(ms: seq<Member>, key: string, value: Json)
    requires WellFormed(Object(ms)) && WellFormed(value)
    ensures WellFormed(Object(Put(ms, key, value)))
  {
    PutSets(ms, key, value);
    var r := Put(ms, key, value);
    forall i | 0 <= i < |r| ensures WellFormed(r[i].value) {
      GetAt(r, i);
      if r[i].key != key { PartsAreWellFormed(ms, r[i].key); }
    }
  }

  // Setting a member that is there.
  lemma PutLands(ms: seq<Member>, key: string, value: Json)
    requires WellFormed(Object(ms)) && DistinctKeys(ms) && WellFormed(value) && key in Keys(ms)
    ensures WellFormed(Object(Put(ms, key, value))) && DistinctKeys(Put(ms, key, value))
    ensures Keys(Put(ms, key, value)) == Keys(ms)
    ensures forall k <- Keys(ms) :: Get(Put(ms, key, value), k) == if k == key then value else Get(ms, k)
  {
    PutSets(ms, key, value);
    PutIsWellFormed(ms, key, value);
  }

  // ---- what the execution target erases ----

  // The manifests agree, up to key order, on everything but productLive, the verification block and the
  // artifacts' contents.
  ghost predicate AgreeButStage(a: Json, b: Json)
    requires IsManifest(a) && IsManifest(b)
  {
    && Keys(a.members) == Keys(b.members)
    && (forall k <- Keys(a.members) :: k != EVIDENCE ==> SameAt(a.members, b.members, k))
    && Keys(Evidence(a)) == Keys(Evidence(b))
    && (forall k <- Keys(Evidence(a)) :: k !in {LIVE, BLOCK, ARTIFACTS} ==> SameAt(Evidence(a), Evidence(b), k))
  }

  lemma ManifestParts(m: Json)
    requires IsManifest(m)
    ensures DistinctKeys(m.members) && WellFormed(Object(Evidence(m))) && DistinctKeys(Evidence(m))
    ensures WellFormed(Object(Artifacts(m))) && DistinctKeys(Artifacts(m))
  {
    PartsAreWellFormed(m.members, EVIDENCE);
    PartsAreWellFormed(Evidence(m), ARTIFACTS);
  }

  lemma BlankIsWellFormed()
    ensures WellFormed(BLANK_ARTIFACT)
  {
  }

  lemma AllBlank(ms: seq<Member>)
    requires DistinctKeys(ms) && forall k <- Keys(ms) :: Get(ms, k) == BLANK_ARTIFACT
    ensures WellFormed(Object(ms))
  {
    BlankIsWellFormed();
    forall i | 0 <= i < |ms| ensures WellFormed(ms[i].value) { GetAt(ms, i); }
  }

  lemma BlankedIsWellFormed(m: Json)
    requires IsManifest(m)
    ensures WellFormed(Blanked(m)) && Keys(Blanked(m).members) == (set k <- ARTIFACT_KEYS)
    ensures forall k <- Keys(Blanked(m).members) :: Get(Blanked(m).members, k) == BLANK_ARTIFACT
  {
    ManifestParts(m);
    PutEachSets(Artifacts(m), ARTIFACT_KEYS, BLANK_ARTIFACT);
    AllBlank(Blanked(m).members);
  }

  lemma BlankedAgree(a: Json, b: Json)
    requires IsManifest(a) && IsManifest(b)
    ensures Same(Blanked(a), Blanked(b))
  {
    BlankedIsWellFormed(a);
    BlankedIsWellFormed(b);
    assert Same(BLANK_ARTIFACT, BLANK_ARTIFACT) by { SortDecidesSame(BLANK_ARTIFACT, BLANK_ARTIFACT); }
    SameObjects(Blanked(a).members, Blanked(b).members);
  }

  lemma EvidenceOfTarget(m: Json)
    requires IsManifest(m)
    ensures WellFormed(Object(TargetEvidence(m))) && DistinctKeys(TargetEvidence(m))
    ensures Keys(TargetEvidence(m)) == Keys(Evidence(m))
    ensures forall k <- Keys(Evidence(m)) ::
              Get(TargetEvidence(m), k) == if k == ARTIFACTS then Blanked(m) else if k == BLOCK then Null
                                           else if k == LIVE then Bool(true) else Get(Evidence(m), k)
  {
    ManifestParts(m);
    BlankedIsWellFormed(m);
    var one := Put(Evidence(m), LIVE, Bool(true));
    PutLands(Evidence(m), LIVE, Bool(true));
    PutLands(one, BLOCK, Null);
    PutLands(Put(one, BLOCK, Null), ARTIFACTS, Blanked(m));
  }

  lemma MembersOfTarget(m: Json)
    requires IsManifest(m)
    ensures WellFormed(Target(m)) && Keys(Target(m).members) == Keys(m.members)
    ensures forall k <- Keys(m.members) ::
              Get(Target(m).members, k) == if k == EVIDENCE then Object(TargetEvidence(m)) else Get(m.members, k)
  {
    ManifestParts(m);
    EvidenceOfTarget(m);
    PutSets(m.members, EVIDENCE, Object(TargetEvidence(m)));
    PutIsWellFormed(m.members, EVIDENCE, Object(TargetEvidence(m)));
  }

  lemma EvidencesAgree(a: Json, b: Json)
    requires IsManifest(a) && IsManifest(b)
    ensures Same(Object(TargetEvidence(a)), Object(TargetEvidence(b))) <==>
            Keys(Evidence(a)) == Keys(Evidence(b))
            && forall k <- Keys(Evidence(a)) :: k !in {LIVE, BLOCK, ARTIFACTS} ==> SameAt(Evidence(a), Evidence(b), k)
  {
    EvidenceOfTarget(a);
    EvidenceOfTarget(b);
    BlankedAgree(a, b);
    SameObjects(TargetEvidence(a), TargetEvidence(b));
    if Keys(Evidence(a)) == Keys(Evidence(b)) {
      forall k <- Keys(Evidence(a))
        ensures SameAt(TargetEvidence(a), TargetEvidence(b), k) <==>
                k in {LIVE, BLOCK, ARTIFACTS} || SameAt(Evidence(a), Evidence(b), k)
      {
      }
    }
  }

  lemma TargetsAgree(a: Json, b: Json)
    requires IsManifest(a) && IsManifest(b)
    ensures Same(Target(a), Target(b)) <==> AgreeButStage(a, b)
  {
    MembersOfTarget(a);
    MembersOfTarget(b);
    EvidencesAgree(a, b);
    SameObjects(Target(a).members, Target(b).members);
    if Keys(a.members) == Keys(b.members) {
      forall k <- Keys(a.members)
        ensures SameAt(Target(a).members, Target(b).members, k) <==>
                if k == EVIDENCE then Same(Object(TargetEvidence(a)), Object(TargetEvidence(b)))
                else SameAt(a.members, b.members, k)
      {
      }
      assert SameAt(Target(a).members, Target(b).members, EVIDENCE) <==>
             Same(Object(TargetEvidence(a)), Object(TargetEvidence(b)));
    }
  }

  // The execution-target digest identifies a manifest up to stage and key order, and nothing else.
  lemma ExecutionDigestIdentifies(digest: Json -> Hash, a: Json, b: Json)
    requires IsManifest(a) && IsManifest(b)
    ensures AgreeButStage(a, b) ==> ExecutionTargetDigest(digest, a) == ExecutionTargetDigest(digest, b)
    ensures Injective(digest) ==>
              (ExecutionTargetDigest(digest, a) == ExecutionTargetDigest(digest, b) <==> AgreeButStage(a, b))
  {
    MembersOfTarget(a);
    MembersOfTarget(b);
    SortDecidesSame(Target(a), Target(b));
    TargetsAgree(a, b);
  }

  // ---- the signature subject ----

  lemma SameAsItself(v: Json)
    requires WellFormed(v)
    ensures Same(v, v)
  {
    SortDecidesSame(v, v);
  }

  lemma EvidenceOfSubject(m: Json)
    requires IsManifest(m)
    ensures Keys(Subject(m).members) == Keys(m.members) && HasObject(Subject(m).members, EVIDENCE)
    ensures forall k <- Keys(m.members) :: k != EVIDENCE ==> Get(Subject(m).members, k) == Get(m.members, k)
    ensures Keys(Evidence(Subject(m))) == Keys(Evidence(m))
    ensures forall k <- Keys(Evidence(m)) :: k != ARTIFACTS ==> Get(Evidence(Subject(m)), k) == Get(Evidence(m), k)
  {
    ManifestParts(m);
    PutSets(Evidence(m), ARTIFACTS, Blanked(m));
    PutSets(m.members, EVIDENCE, Object(Put(Evidence(m), ARTIFACTS, Blanked(m))));
  }

  lemma SameSubjectAgrees(a: Json, b: Json)
    requires IsManifest(a) && IsManifest(b) && Subject(a) == Subject(b)
    ensures AgreeButStage(a, b)
    ensures Get(Evidence(a), LIVE) == Get(Evidence(b), LIVE) && Get(Evidence(a), BLOCK) == Get(Evidence(b), BLOCK)
  {
    EvidenceOfSubject(a);
    EvidenceOfSubject(b);
    ManifestParts(a);
    forall k <- Keys(a.members) | k != EVIDENCE ensures SameAt(a.members, b.members, k) {
      PartsAreWellFormed(a.members, k);
      SameAsItself(Get(a.members, k));
    }
    forall k <- Keys(Evidence(a)) | k !in {LIVE, BLOCK, ARTIFACTS} ensures SameAt(Evidence(a), Evidence(b), k) {
      PartsAreWellFormed(Evidence(a), k);
      SameAsItself(Get(Evidence(a), k));
    }
  }

  // The subject binds more: equal subjects have equal execution targets, and a candidate and its live
  // target, alike but for their stage, share the execution target but never the subject.
  lemma SubjectBindsStage(digest: Json -> Hash, a: Json, b: Json)
    requires IsManifest(a) && IsManifest(b) && Injective(digest)
    ensures SubjectDigest(digest, a) == SubjectDigest(digest, b) ==>
              ExecutionTargetDigest(digest, a) == ExecutionTargetDigest(digest, b)
    ensures AgreeButStage(a, b)
            && (Get(Evidence(a), LIVE) != Get(Evidence(b), LIVE)
                || Get(Evidence(a), BLOCK) != Get(Evidence(b), BLOCK)) ==>
              ExecutionTargetDigest(digest, a) == ExecutionTargetDigest(digest, b)
              && SubjectDigest(digest, a) != SubjectDigest(digest, b)
  {
    ExecutionDigestIdentifies(digest, a, b);
    if Subject(a) == Subject(b) { SameSubjectAgrees(a, b); }
  }
}

/**
 What the gate guarantees over all requests and all runs.
 */
module ActionGateProofs {
  import opened Common
  import opened Utf16
  import opened CanonicalJsonProofs
  import opened ActionGate
  import J = CanonicalJson

  // ---------- risk ----------

  lemma {:induction false} FoldRiskIsMaximum(base: Risk, claims: seq<Claim>)
    ensures IsMaximumRisk(FoldRisk(base, claims), base, claims)
  {
    if claims != [] {
      var init, last := claims[..|claims| - 1], claims[|claims| - 1];
      FoldRiskIsMaximum(base, init);
      assert claims == init + [last];
    }
  }

  lemma WeightInjective(a: Risk, b: Risk)
    requires Weight(a) == Weight(b)
    ensures a == b
  {}

  lemma MaximumRiskIsUnique(k: Risk, l: Risk, base: Risk, a: seq<Claim>, b: seq<Claim>)
    requires multiset(a) == multiset(b)
    requires IsMaximumRisk(k, base, a) && IsMaximumRisk(l, base, b)
    ensures k == l
  {
    assert forall c :: c in a <==> c in b by {
      assert forall c :: c in a <==> c in multiset(a);
      assert forall c :: c in b <==> c in multiset(b);
    }
    WeightInjective(k, l);
  }

  /** The order of the claims does not matter to the risk. */
  lemma RiskIgnoresClaimOrder(r: Request, claims: seq<Claim>)
    requires multiset(claims) == multiset(r.claims)
    ensures RiskOf(r.(claims := claims)) == RiskOf(r)
  {
    FoldRiskIsMaximum(BaseRisk(r), r.claims);
    FoldRiskIsMaximum(BaseRisk(r), claims);
    MaximumRiskIsUnique(RiskOf(r.(claims := claims)), RiskOf(r), BaseRisk(r), claims, r.claims);
  }

  lemma MoreClaimsRaiseRisk(base: Risk, a: seq<Claim>, b: seq<Claim>)
    requires forall c :: c in a ==> c in b
    ensures Weight(FoldRisk(base, a)) <= Weight(FoldRisk(base, b))
  {
    FoldRiskIsMaximum(base, a);
    FoldRiskIsMaximum(base, b);
  }

  // ---------- what the hashed text binds ----------

  /** A record member that is dropped from both values, or means the same in both. */
  ghost predicate SameField(v: Value, w: Value) {
    Shown(v) == Shown(w) && (Shown(v) ==> J.MeaningOf(v) == J.MeaningOf(w))
  }

  /** Values that a record member may have. */
  ghost predicate Shown(v: Value) { !v.Undefined? && !v.Function? && !v.Symbol? }

  ghost predicate Distinct(keys: seq<Text>) {
    && (forall i, j :: 0 <= i < j < |keys| ==> keys[i] != keys[j])
    && forall i :: 0 <= i < |keys| ==> keys[i] != Lit("__proto__")
  }

  lemma {:induction false} FieldOf(ms: seq<J.Member>, i: nat)
    requires forall i, j :: 0 <= i < j < |ms| ==> ms[i].key != ms[j].key
    requires i < |ms|
    ensures ms[i].key in J.FieldMeanings(ms) <==> !J.MeansNothing(ms[i])
    ensures !J.MeansNothing(ms[i]) ==> J.FieldMeanings(ms)[ms[i].key] == J.MeaningOf(ms[i].value)
  {
    if i == 0 {
      NotAField(ms[1..], ms[0].key);
    } else {
      FieldOf(ms[1..], i - 1);
    }
  }

  lemma {:induction false} NotAField(ms: seq<J.Member>, k: Text)
    requires forall i :: 0 <= i < |ms| ==> ms[i].key != k
    ensures k !in J.FieldMeanings(ms)
  {
    if ms != [] {
      NotAField(ms[1..], k);
    }
  }

  lemma {:induction false} FieldsDetermineRecord(ms: seq<J.Member>, ns: seq<J.Member>)
    requires |ms| == |ns|
    requires forall i :: 0 <= i < |ms| ==> ms[i].key == ns[i].key && SameField(ms[i].value, ns[i].value)
    ensures J.FieldMeanings(ms) == J.FieldMeanings(ns)
  {
    if ms != [] {
      assert ms[0].key == ns[0].key && SameField(ms[0].value, ns[0].value);
      FieldsDetermineRecord(ms[1..], ns[1..]);
    }
  }

  /** Records over the same keys mean the same iff each member does. */
  lemma RecordsAgree(keys: seq<Text>, vs: seq<Value>, ws: seq<Value>)
    requires Distinct(keys) && |vs| == |ws| == |keys|
    ensures SameField(Record(keys, vs), Record(keys, ws))
            <==> forall i :: 0 <= i < |vs| ==> SameField(vs[i], ws[i])
    ensures J.MeaningOf(Record(keys, vs)) == J.MeaningOf(Record(keys, ws))
            <==> SameField(Record(keys, vs), Record(keys, ws))
  {
    var ms, ns := Record(keys, vs).members, Record(keys, ws).members;
    if J.FieldMeanings(ms) == J.FieldMeanings(ns) {
      forall i | 0 <= i < |ms| ensures SameField(vs[i], ws[i]) {
        FieldOf(ms, i);
        FieldOf(ns, i);
      }
    }
    if forall i :: 0 <= i < |vs| ==> SameField(vs[i], ws[i]) {
      forall i | 0 <= i < |ms| ensures ms[i].key == ns[i].key && SameField(ms[i].value, ns[i].value) {
        assert SameField(vs[i], ws[i]);
      }
      FieldsDetermineRecord(ms, ns);
    }
  }

  lemma RecordValid(keys: seq<Text>, vs: seq<Value>)
    requires Distinct(keys) && |vs| == |keys| && forall i :: 0 <= i < |vs| ==> J.Valid(vs[i])
    ensures J.Valid(Record(keys, vs))
  {}

  // ---------- the literal keys ----------

  function Fingerprint(t: Text): int { if |t| < 2 then 0 else (|t| * 1000 + t[0]) * 1000 + t[1] }

  lemma ByFingerprint(keys: seq<Text>)
    requires forall i, j :: 0 <= i < j < |keys| ==> Fingerprint(keys[i]) != Fingerprint(keys[j])
    requires forall i :: 0 <= i < |keys| ==> Fingerprint(keys[i]) != 9_095_095
    ensures Distinct(keys)
  {
    assert Fingerprint(Lit("__proto__")) == 9_095_095;
  }

  lemma RollbackKeysDistinct()
    ensures Distinct(RollbackKeys())
  {
    var keys := RollbackKeys();
    assert Fingerprint(keys[0]) == 7_112_108 && Fingerprint(keys[1]) == 10_112_108;
    assert Fingerprint(keys[2]) == 7_097_099;
    ByFingerprint(keys);
  }

  lemma ActorKeysDistinct()
    ensures Distinct(ActorKeys())
  {
    var keys := ActorKeys();
    assert Fingerprint(keys[0]) == 4_107_105 && Fingerprint(keys[1]) == 2_105_100;
    assert Fingerprint(keys[2]) == 11_112_114;
    ByFingerprint(keys);
  }

  lemma ResourceKeysDistinct()
    ensures Distinct(ResourceKeys())
  {
    var keys := ResourceKeys();
    assert Fingerprint(keys[0]) == 4_116_121 && Fingerprint(keys[1]) == 2_105_100;
    assert Fingerprint(keys[2]) == 6_100_105 && Fingerprint(keys[3]) == 10_097_116;
    ByFingerprint(keys);
  }

  lemma FirstDigestFingerprints()
    ensures var keys := DigestKeys();
            && Fingerprint(keys[0]) == 7_118_101 && Fingerprint(keys[1]) == 6_097_099
            && Fingerprint(keys[2]) == 5_097_099 && Fingerprint(keys[3]) == 7_115_117
            && Fingerprint(keys[4]) == 8_114_101 && Fingerprint(keys[5]) == 8_109_117
  {}

  lemma LastDigestFingerprints()
    ensures var keys := DigestKeys();
            && Fingerprint(keys[6]) == 4_114_105 && Fingerprint(keys[7]) == 10_112_097
            && Fingerprint(keys[8]) == 10_112_108 && Fingerprint(keys[9]) == 8_114_111
            && Fingerprint(keys[10]) == 14_105_100
  {}

  lemma DigestKeysDistinct()
    ensures Distinct(DigestKeys())
  {
    FirstDigestFingerprints();
    LastDigestFingerprints();
    ByFingerprint(DigestKeys());
  }

  lemma FirstSignatureFingerprints()
    ensures var keys := SignatureKeys();
            && Fingerprint(keys[0]) == 7_118_101 && Fingerprint(keys[1]) == 8_100_101
            && Fingerprint(keys[2]) == 10_097_112 && Fingerprint(keys[3]) == 20_100_101
  {}

  lemma LastSignatureFingerprints()
    ensures var keys := SignatureKeys();
            && Fingerprint(keys[4]) == 12_097_099 && Fingerprint(keys[5]) == 6_114_101
            && Fingerprint(keys[6]) == 9_101_120 && Fingerprint(keys[7]) == 24_099_104
  {}

  lemma SignatureKeysDistinct()
    ensures Distinct(SignatureKeys())
  {
    FirstSignatureFingerprints();
    LastSignatureFingerprints();
    ByFingerprint(SignatureKeys());
  }

  // ---------- the payloads ----------

  ghost predicate SameOptional(a: Option<Value>, b: Option<Value>) {
    a.Some? == b.Some? && (a.Some? ==> J.MeaningOf(a.value) == J.MeaningOf(b.value))
  }

  /** Attributes and parameters are JavaScript records. */
  ghost predicate IsRecord(o: Option<Value>) { o.Some? ==> o.value.Object? && J.Valid(o.value) }

  ghost predicate ValidRequest(r: Request) { IsRecord(r.resource.attributes) && IsRecord(r.parameters) }

  /** The parts of a request that its digest speaks for. */
  ghost predicate SameBoundParts(r: Request, k: Risk, s: Request, l: Risk) {
    && r.action == s.action
    && r.actor.kind == s.actor.kind && r.actor.id == s.actor.id && r.actor.principalId == s.actor.principalId
    && r.surface == s.surface
    && r.resource.kind == s.resource.kind && r.resource.id == s.resource.id
    && r.resource.digest == s.resource.digest
    && SameOptional(r.resource.attributes, s.resource.attributes)
    && r.mutating == s.mutating && k == l
    && SameOptional(r.parameters, s.parameters)
    && r.planDigest == s.planDigest && r.rollback == s.rollback && r.idempotencyKey == s.idempotencyKey
  }

  lemma OptTextField(a: Option<Text>, b: Option<Text>)
    ensures SameField(OptText(a), OptText(b)) <==> a == b
    ensures J.Valid(OptText(a))
  {}

  lemma OptValueField(a: Option<Value>, b: Option<Value>)
    requires IsRecord(a) && IsRecord(b)
    ensures SameField(OptValue(a), OptValue(b)) <==> SameOptional(a, b)
    ensures J.Valid(OptValue(a))
  {}

  lemma {:induction false} TextArrayMeaning(a: seq<Text>, b: seq<Text>)
    ensures J.ItemMeanings(TextArray(a)) == J.ItemMeanings(TextArray(b)) <==> a == b
  {
    ItemMeaningsLength(TextArray(a));
    ItemMeaningsLength(TextArray(b));
    if a != [] && b != [] {
      assert TextArray(a)[1..] == TextArray(a[1..]) && TextArray(b)[1..] == TextArray(b[1..]);
      TextArrayMeaning(a[1..], b[1..]);
      var m, n := J.ItemMeanings(TextArray(a)), J.ItemMeanings(TextArray(b));
      assert m == [m[0]] + m[1..] && n == [n[0]] + n[1..];
      assert a == [a[0]] + a[1..] && b == [b[0]] + b[1..];
      assert m[1..] == J.ItemMeanings(TextArray(a[1..])) && n[1..] == J.ItemMeanings(TextArray(b[1..]));
    }
  }

  lemma {:induction false} ItemMeaningsLength(items: seq<Value>)
    ensures |J.ItemMeanings(items)| == |items|
  {
    if items != [] {
      ItemMeaningsLength(items[1..]);
    }
  }

  lemma ThreeFields(vs: seq<Value>, ws: seq<Value>)
    requires |vs| == |ws| == 3
    ensures (forall i :: 0 <= i < |vs| ==> SameField(vs[i], ws[i])) <==>
            SameField(vs[0], ws[0]) && SameField(vs[1], ws[1]) && SameField(vs[2], ws[2])
  {}

  lemma FourFields(vs: seq<Value>, ws: seq<Value>)
    requires |vs| == |ws| == 4
    ensures (forall i :: 0 <= i < |vs| ==> SameField(vs[i], ws[i])) <==>
            && SameField(vs[0], ws[0]) && SameField(vs[1], ws[1])
            && SameField(vs[2], ws[2]) && SameField(vs[3], ws[3])
  {}

  lemma ActionsField(a: Option<seq<Text>>, b: Option<seq<Text>>)
    ensures SameField(OptTexts(a), OptTexts(b)) <==> a == b
    ensures J.Valid(OptTexts(a))
  {
    if a.Some? && b.Some? {
      TextArrayMeaning(a.value, b.value);
    }
  }

  lemma RollbackField(a: Option<Rollback>, b: Option<Rollback>)
    ensures SameField(RollbackValue(a), RollbackValue(b)) <==> a == b
    ensures J.Valid(RollbackValue(a))
  {
    RollbackKeysDistinct();
    if a.Some? {
      var vs := RollbackValues(a.value);
      RecordValid(RollbackKeys(), vs);
      if b.Some? {
        var ws := RollbackValues(b.value);
        RecordsAgree(RollbackKeys(), vs, ws);
        OptTextField(a.value.planDigest, b.value.planDigest);
        ActionsField(a.value.actions, b.value.actions);
        ThreeFields(vs, ws);
      }
    }
  }

  lemma ActorValuesAgree(a: Actor, b: Actor)
    ensures var vs, ws := ActorValues(a), ActorValues(b);
            (forall i :: 0 <= i < |vs| ==> SameField(vs[i], ws[i]))
            <==> a.kind == b.kind && a.id == b.id && a.principalId == b.principalId
    ensures forall i :: 0 <= i < 3 ==> J.Valid(ActorValues(a)[i])
  {
    StrField(a.kind, b.kind);
    StrField(a.id, b.id);
    OptTextField(a.principalId, b.principalId);
    ThreeFields(ActorValues(a), ActorValues(b));
  }

  lemma ActorField(a: Actor, b: Actor)
    ensures SameField(Record(ActorKeys(), ActorValues(a)), Record(ActorKeys(), ActorValues(b)))
            <==> a.kind == b.kind && a.id == b.id && a.principalId == b.principalId
    ensures J.Valid(Record(ActorKeys(), ActorValues(a)))
  {
    ActorKeysDistinct();
    ActorValuesAgree(a, b);
    RecordsAgree(ActorKeys(), ActorValues(a), ActorValues(b));
    RecordValid(ActorKeys(), ActorValues(a));
  }

  lemma ResourceValuesAgree(a: Resource, b: Resource)
    requires IsRecord(a.attributes) && IsRecord(b.attributes)
    ensures var vs, ws := ResourceValues(a), ResourceValues(b);
            (forall i :: 0 <= i < |vs| ==> SameField(vs[i], ws[i]))
            <==> a.kind == b.kind && a.id == b.id && a.digest == b.digest && SameOptional(a.attributes, b.attributes)
    ensures forall i :: 0 <= i < 4 ==> J.Valid(ResourceValues(a)[i])
  {
    var vs, ws := ResourceValues(a), ResourceValues(b);
    OptTextField(a.id, b.id);
    OptTextField(a.digest, b.digest);
    OptValueField(a.attributes, b.attributes);
    FourFields(vs, ws);
  }

  lemma ResourceField(a: Resource, b: Resource)
    requires IsRecord(a.attributes) && IsRecord(b.attributes)
    ensures SameField(Record(ResourceKeys(), ResourceValues(a)), Record(ResourceKeys(), ResourceValues(b)))
            <==> a.kind == b.kind && a.id == b.id && a.digest == b.digest && SameOptional(a.attributes, b.attributes)
    ensures J.Valid(Record(ResourceKeys(), ResourceValues(a)))
  {
    ResourceKeysDistinct();
    ResourceValuesAgree(a, b);
    RecordsAgree(ResourceKeys(), ResourceValues(a), ResourceValues(b));
    RecordValid(ResourceKeys(), ResourceValues(a));
  }

  lemma RiskTextInjective(k: Risk, l: Risk)
    requires RiskText(k) == RiskText(l)
    ensures k == l
  {
    assert RiskText(k)[0] == RiskText(l)[0];
    assert |RiskText(k)| == |RiskText(l)|;
  }

  lemma RiskField(k: Risk, l: Risk)
    ensures SameField(J.Str(RiskText(k)), J.Str(RiskText(l))) <==> k == l
  {
    if RiskText(k) == RiskText(l) {
      RiskTextInjective(k, l);
    }
  }

  lemma DigestPayloadValid(r: Request, k: Risk)
    requires ValidRequest(r)
    ensures J.Valid(DigestPayload(r, k))
  {
    ActorField(r.actor, r.actor);
    ResourceField(r.resource, r.resource);
    RollbackField(r.rollback, r.rollback);
    OptValueField(r.parameters, r.parameters);
    DigestKeysDistinct();
    RecordValid(DigestKeys(), DigestValues(r, k));
  }

  lemma ElevenFields(vs: seq<Value>, ws: seq<Value>)
    requires |vs| == |ws| == 11
    ensures (forall i :: 0 <= i < |vs| ==> SameField(vs[i], ws[i])) <==>
            && SameField(vs[0], ws[0]) && SameField(vs[1], ws[1]) && SameField(vs[2], ws[2])
            && SameField(vs[3], ws[3]) && SameField(vs[4], ws[4]) && SameField(vs[5], ws[5])
            && SameField(vs[6], ws[6]) && SameField(vs[7], ws[7]) && SameField(vs[8], ws[8])
            && SameField(vs[9], ws[9]) && SameField(vs[10], ws[10])
  {}

  lemma DigestRecordFields(r: Request, k: Risk, s: Request, l: Risk)
    requires ValidRequest(r) && ValidRequest(s)
    ensures var vs, ws := DigestValues(r, k), DigestValues(s, l);
            && (SameField(vs[2], ws[2]) <==>
                r.actor.kind == s.actor.kind && r.actor.id == s.actor.id && r.actor.principalId == s.actor.principalId)
            && (SameField(vs[4], ws[4]) <==>
                && r.resource.kind == s.resource.kind && r.resource.id == s.resource.id
                && r.resource.digest == s.resource.digest
                && SameOptional(r.resource.attributes, s.resource.attributes))
            && (SameField(vs[9], ws[9]) <==> r.rollback == s.rollback)
  {
    ActorField(r.actor, s.actor);
    ResourceField(r.resource, s.resource);
    RollbackField(r.rollback, s.rollback);
  }

  lemma StrField(a: Text, b: Text)
    ensures SameField(J.Str(a), J.Str(b)) <==> a == b
  {}

  lemma BoolField(a: bool, b: bool)
    ensures SameField(J.Bool(a), J.Bool(b)) <==> a == b
  {}

  lemma DigestTextFields(r: Request, k: Risk, s: Request, l: Risk)
    ensures var vs, ws := DigestValues(r, k), DigestValues(s, l);
            && SameField(vs[0], ws[0])
            && (SameField(vs[1], ws[1]) <==> r.action == s.action)
            && (SameField(vs[3], ws[3]) <==> r.surface == s.surface)
  {
    StrField(r.action, s.action);
    StrField(r.surface, s.surface);
  }

  lemma DigestFlagFields(r: Request, k: Risk, s: Request, l: Risk)
    ensures var vs, ws := DigestValues(r, k), DigestValues(s, l);
            && (SameField(vs[5], ws[5]) <==> r.mutating == s.mutating)
            && (SameField(vs[6], ws[6]) <==> k == l)
  {
    BoolField(r.mutating, s.mutating);
    RiskField(k, l);
  }

  lemma DigestOptionalFields(r: Request, k: Risk, s: Request, l: Risk)
    requires ValidRequest(r) && ValidRequest(s)
    ensures var vs, ws := DigestValues(r, k), DigestValues(s, l);
            && (SameField(vs[7], ws[7]) <==> SameOptional(r.parameters, s.parameters))
            && (SameField(vs[8], ws[8]) <==> r.planDigest == s.planDigest)
            && (SameField(vs[10], ws[10]) <==> r.idempotencyKey == s.idempotencyKey)
  {
    OptValueField(r.parameters, s.parameters);
    OptTextField(r.planDigest, s.planDigest);
    OptTextField(r.idempotencyKey, s.idempotencyKey);
  }

  lemma DigestPayloadMeaning(r: Request, k: Risk, s: Request, l: Risk)
    requires ValidRequest(r) && ValidRequest(s)
    ensures J.MeaningOf(DigestPayload(r, k)) == J.MeaningOf(DigestPayload(s, l)) <==> SameBoundParts(r, k, s, l)
  {
    DigestKeysDistinct();
    RecordsAgree(DigestKeys(), DigestValues(r, k), DigestValues(s, l));
    ElevenFields(DigestValues(r, k), DigestValues(s, l));
    DigestRecordFields(r, k, s, l);
    DigestTextFields(r, k, s, l);
    DigestFlagFields(r, k, s, l);
    DigestOptionalFields(r, k, s, l);
  }

  /** The hashed text binds exactly the action, actor, surface, resource, parameters, plan, rollback,
      idempotency key, mutation flag and risk. */
  lemma DigestTextBinds(r: Request, k: Risk, s: Request, l: Risk)
    requires ValidRequest(r) && ValidRequest(s)
    ensures DigestText(r, k) == DigestText(s, l) <==> SameBoundParts(r, k, s, l)
  {
    DigestPayloadValid(r, k);
    DigestPayloadValid(s, l);
    CanonicalTextExact(DigestPayload(r, k), DigestPayload(s, l));
    DigestPayloadMeaning(r, k, s, l);
  }

  /** The parts of an approval that its signature speaks for. */
  ghost predicate SameSignedParts(a: Approval, b: Approval) {
    && a.decision == b.decision && a.approvalId == b.approvalId && a.decidedBy == b.decidedBy
    && a.actionDigest == b.actionDigest && a.reason == b.reason && a.expiresAt == b.expiresAt
    && a.childOf == b.childOf
  }

  lemma SignaturePayloadValid(a: Approval)
    ensures J.Valid(SignaturePayload(a))
  {
    SignatureKeysDistinct();
    RecordValid(SignatureKeys(), SignatureValues(a));
  }

  lemma ApprovalDecisionTextInjective(d: ApprovalDecision, e: ApprovalDecision)
    requires ApprovalDecisionText(d) == ApprovalDecisionText(e)
    ensures d == e
  {
    assert |ApprovalDecisionText(d)| == |ApprovalDecisionText(e)|;
  }

  lemma EightFields(vs: seq<Value>, ws: seq<Value>)
    requires |vs| == |ws| == 8
    ensures (forall i :: 0 <= i < |vs| ==> SameField(vs[i], ws[i])) <==>
            && SameField(vs[0], ws[0]) && SameField(vs[1], ws[1]) && SameField(vs[2], ws[2]) && SameField(vs[3], ws[3])
            && SameField(vs[4], ws[4]) && SameField(vs[5], ws[5]) && SameField(vs[6], ws[6]) && SameField(vs[7], ws[7])
  {}

  lemma DecisionField(d: ApprovalDecision, e: ApprovalDecision)
    ensures SameField(J.Str(ApprovalDecisionText(d)), J.Str(ApprovalDecisionText(e))) <==> d == e
  {
    if ApprovalDecisionText(d) == ApprovalDecisionText(e) {
      ApprovalDecisionTextInjective(d, e);
    }
  }

  lemma SignatureTextFields(a: Approval, b: Approval)
    ensures var vs, ws := SignatureValues(a), SignatureValues(b);
            && SameField(vs[0], ws[0])
            && (SameField(vs[1], ws[1]) <==> a.decision == b.decision)
            && (SameField(vs[2], ws[2]) <==> a.approvalId == b.approvalId)
            && (SameField(vs[3], ws[3]) <==> a.decidedBy == b.decidedBy)
            && (SameField(vs[4], ws[4]) <==> a.actionDigest == b.actionDigest)
  {
    DecisionField(a.decision, b.decision);
    StrField(a.approvalId, b.approvalId);
    StrField(a.decidedBy, b.decidedBy);
    StrField(a.actionDigest, b.actionDigest);
  }

  lemma SignatureOptionalFields(a: Approval, b: Approval)
    ensures var vs, ws := SignatureValues(a), SignatureValues(b);
            && (SameField(vs[5], ws[5]) <==> a.reason == b.reason)
            && (SameField(vs[6], ws[6]) <==> a.expiresAt == b.expiresAt)
            && (SameField(vs[7], ws[7]) <==> a.childOf == b.childOf)
  {
    OptTextField(a.reason, b.reason);
    OptTextField(a.expiresAt, b.expiresAt);
    OptTextField(a.childOf, b.childOf);
  }

  lemma SignatureValuesAgree(a: Approval, b: Approval)
    ensures var vs, ws := SignatureValues(a), SignatureValues(b);
            (forall i :: 0 <= i < |vs| ==> SameField(vs[i], ws[i])) <==> SameSignedParts(a, b)
  {
    EightFields(SignatureValues(a), SignatureValues(b));
    SignatureTextFields(a, b);
    SignatureOptionalFields(a, b);
  }

  lemma SignaturePayloadMeaning(a: Approval, b: Approval)
    ensures J.MeaningOf(SignaturePayload(a)) == J.MeaningOf(SignaturePayload(b)) <==> SameSignedParts(a, b)
  {
    SignatureKeysDistinct();
    RecordsAgree(SignatureKeys(), SignatureValues(a), SignatureValues(b));
    SignatureValuesAgree(a, b);
  }

  /** The signed text binds exactly the decision and everything the approval says about it. */
  lemma SignatureTextBinds(a: Approval, b: Approval)
    ensures SignatureText(a) == SignatureText(b) <==> SameSignedParts(a, b)
  {
    SignaturePayloadValid(a);
    SignaturePayloadValid(b);
    CanonicalTextExact(SignaturePayload(a), SignaturePayload(b));
    SignaturePayloadMeaning(a, b);
  }

  /** A signed approval verifies, also when the signature is written in upper case. */
  lemma SignedApprovalVerifies(cfg: Config, a: Approval, secret: Text, shown: Text)
    requires |shown| == 64 && forall i :: 0 <= i < 64 ==> IsHexUnit(shown[i])
    requires Lower(shown) == Signature(cfg, a, secret)
    ensures VerifySignature(cfg, Sign(cfg, a, secret), secret)
    ensures VerifySignature(cfg, Sign(cfg, a, secret).(signature := Some(shown)), secret)
  {
    var signed := Sign(cfg, a, secret);
    var other := signed.(signature := Some(shown));
    SignatureTextBinds(a, signed);
    SignatureTextBinds(a, other);
    var sig := Signature(cfg, a, secret);
    assert forall i :: 0 <= i < 64 ==> IsLowerHex(sig[i]);
    assert Lower(sig) == sig;
  }

  // ---------- the use key ----------

  ghost predicate ColonFree(t: Text) { forall i :: 0 <= i < |t| ==> t[i] != COLON }

  ghost function TailSpan(t: Text): nat {
    if t == [] || t[|t| - 1] == COLON then 0 else 1 + TailSpan(t[..|t| - 1])
  }

  lemma {:induction false} TailSpanOf(p: Text, q: Text)
    requires ColonFree(q)
    ensures TailSpan(p + [COLON] + q) == |q|
  {
    var t := p + [COLON] + q;
    if q == [] {
      assert t[|t| - 1] == COLON;
    } else {
      TailSpanOf(p, q[..|q| - 1]);
      assert t[|t| - 1] == q[|q| - 1];
      assert t[..|t| - 1] == p + [COLON] + q[..|q| - 1];
    }
  }

  lemma SplitAtLastColon(p: Text, q: Text, p': Text, q': Text)
    requires ColonFree(q) && ColonFree(q') && p + [COLON] + q == p' + [COLON] + q'
    ensures p == p' && q == q'
  {
    TailSpanOf(p, q);
    TailSpanOf(p', q');
    SplitConcat(p + [COLON], q, p' + [COLON], q');
    SplitConcat(p, [COLON], p', [COLON]);
  }

  lemma IssuerTextInjective(i: Option<Issuer>, j: Option<Issuer>)
    requires IssuerText(i) == IssuerText(j)
    ensures i == j
  {
    assert i.Some? ==> |IssuerText(i)| == 21 && i.value.FridayCanonicalGate?;
    assert j.Some? ==> |IssuerText(j)| == 21 && j.value.FridayCanonicalGate?;
  }

  lemma SignaturePartInjective(a: Approval, b: Approval)
    requires SignaturePart(a) == SignaturePart(b)
    ensures NormalizedSignature(a.signature) == NormalizedSignature(b.signature)
  {
    assert |SignaturePart(a)| == |SignaturePart(b)|;
  }

  /** Approval id and digest, as the key joins them. */
  function KeyHead(a: Approval): Text { a.approvalId + [COLON] + a.actionDigest }

  lemma KeyTail(a: Approval, b: Approval)
    requires UseKey(a) == UseKey(b)
    ensures KeyHead(a) == KeyHead(b)
    ensures IssuerText(a.issuer) == IssuerText(b.issuer) && SignaturePart(a) == SignaturePart(b)
  {
    var p, q := KeyHead(a) + [COLON] + IssuerText(a.issuer), KeyHead(b) + [COLON] + IssuerText(b.issuer);
    assert ColonFree(SignaturePart(a)) && ColonFree(SignaturePart(b));
    SplitAtLastColon(p, SignaturePart(a), q, SignaturePart(b));
    assert ColonFree(IssuerText(a.issuer)) && ColonFree(IssuerText(b.issuer));
    SplitAtLastColon(KeyHead(a), IssuerText(a.issuer), KeyHead(b), IssuerText(b.issuer));
  }

  /** The joined key keeps its four parts apart, whatever colons the approval id contains. */
  lemma UseKeyUnambiguous(a: Approval, b: Approval)
    requires IsHexDigest(a.actionDigest) && IsHexDigest(b.actionDigest)
    ensures UseKey(a) == UseKey(b)
            <==> && a.approvalId == b.approvalId && a.actionDigest == b.actionDigest && a.issuer == b.issuer
                 && NormalizedSignature(a.signature) == NormalizedSignature(b.signature)
  {
    if UseKey(a) == UseKey(b) {
      KeyTail(a, b);
      assert ColonFree(a.actionDigest) && ColonFree(b.actionDigest);
      SplitAtLastColon(a.approvalId, a.actionDigest, b.approvalId, b.actionDigest);
      IssuerTextInjective(a.issuer, b.issuer);
      SignaturePartInjective(a, b);
    }
  }

  // ---------- what a decision means ----------

  ghost predicate Unexpired(cfg: Config, a: Approval, now: Text) {
    && a.expiresAt.Some? && cfg.parseTime(a.expiresAt.value).Some? && cfg.parseTime(now).Some?
    && cfg.parseTime(now).value < cfg.parseTime(a.expiresAt.value).value
  }

  /** Approved, bound to this request's digest, signed when signatures are demanded, and unexpired. */
  ghost predicate Usable(cfg: Config, r: Request, a: Approval, now: Text) {
    && a.decision.Approved? && a.actionDigest == ActionDigest(cfg, r)
    && SignatureAccepted(cfg, a) && Unexpired(cfg, a, now)
  }

  ghost predicate Unobjectionable(r: Request) { !IsReserved(r) && forall c :: c in r.claims ==> c.decision != Deny }

  ghost predicate TicketFree(r: Request) {
    && !r.mutating && Weight(RiskOf(r)) < Weight(High)
    && forall c :: c in r.claims ==> c.decision != RequiresApproval
  }

  lemma HasClaimMeans(claims: seq<Claim>, d: Decision)
    ensures HasClaim(claims, d) <==> exists c :: c in claims && c.decision == d
  {}

  /** The exact meaning of "allow" and of a ticket. */
  lemma AllowExactly(cfg: Config, consumed: set<Text>, r: Request, now: Text, ticketId: Text)
    ensures var res := ResultOf(cfg, consumed, r, now, ticketId);
            && (res.decision == Allow <==>
                && Unobjectionable(r)
                && (r.approval.Some? ==> Usable(cfg, r, r.approval.value, now))
                && (TicketFree(r) || (r.approval.Some? && UseKey(r.approval.value) !in consumed)))
            && (res.ticket.Some? <==> res.decision == Allow && !TicketFree(r))
            && (res.ticket.Some? ==>
                && r.approval.Some? && IsHexDigest(r.approval.value.actionDigest)
                && res.ticket.value.actionDigest == ActionDigest(cfg, r) == r.approval.value.actionDigest
                && res.ticket.value.approvalId == r.approval.value.approvalId
                && res.ticket.value.risk == RiskOf(r))
  {
    HasClaimMeans(r.claims, Deny);
    HasClaimMeans(r.claims, RequiresApproval);
    if r.approval.Some? {
      var a := r.approval.value;
      assert ApprovalFault(cfg, ActionDigest(cfg, r), a, now).None? <==> Usable(cfg, r, a, now);
    }
  }

  /** Approval is asked for exactly when nothing denies, none is at hand and a ticket is needed. */
  lemma AskedForExactly(cfg: Config, consumed: set<Text>, r: Request, now: Text, ticketId: Text)
    ensures ResultOf(cfg, consumed, r, now, ticketId).decision == RequiresApproval
            <==> Unobjectionable(r) && r.approval.None? && !TicketFree(r)
  {
    HasClaimMeans(r.claims, Deny);
    HasClaimMeans(r.claims, RequiresApproval);
  }

  function Openness(d: Decision): nat {
    match d
    case Deny => 0
    case RequiresApproval => 1
    case Allow => 2
  }

  /** The request with claim `c` put in at place `i`. */
  function WithClaim(r: Request, i: nat, c: Claim): Request
    requires i <= |r.claims|
  {
    r.(claims := r.claims[..i] + [c] + r.claims[i..])
  }

  lemma ClaimAdds(r: Request, i: nat, c: Claim)
    requires i <= |r.claims|
    ensures var more := WithClaim(r, i, c);
            && Weight(RiskOf(r)) <= Weight(RiskOf(more))
            && (Unobjectionable(more) ==> Unobjectionable(r)) && (TicketFree(more) ==> TicketFree(r))
  {
    var claims := WithClaim(r, i, c).claims;
    forall d | d in r.claims ensures d in claims {
      var j :| 0 <= j < |r.claims| && r.claims[j] == d;
      assert claims[if j < i then j else j + 1] == d;
    }
    MoreClaimsRaiseRisk(BaseRisk(r), r.claims, claims);
  }

  /** The claim makes the presented approval usable, which is not bound to the request without it. */
  ghost predicate BindsApproval(cfg: Config, consumed: set<Text>, r: Request, more: Request, now: Text) {
    && r.approval.Some? && r.approval.value.actionDigest != ActionDigest(cfg, r)
    && Unobjectionable(more) && Usable(cfg, more, r.approval.value, now)
    && (TicketFree(more) || UseKey(r.approval.value) !in consumed)
  }

  /** One more claim opens the gate further exactly when it raises the request to the one that the
      approval at hand was given for. */
  lemma ClaimLoosensExactly(cfg: Config, consumed: set<Text>, r: Request, i: nat, c: Claim, now: Text, id: Text)
    requires i <= |r.claims|
    ensures var more := WithClaim(r, i, c);
            Openness(ResultOf(cfg, consumed, more, now, id).decision)
            > Openness(ResultOf(cfg, consumed, r, now, id).decision)
            <==> BindsApproval(cfg, consumed, r, more, now)
  {
    var more := WithClaim(r, i, c);
    ClaimAdds(r, i, c);
    AllowExactly(cfg, consumed, r, now, id);
    AllowExactly(cfg, consumed, more, now, id);
    AskedForExactly(cfg, consumed, r, now, id);
    AskedForExactly(cfg, consumed, more, now, id);
  }

  lemma SameRiskSameDigest(cfg: Config, r: Request, i: nat, c: Claim)
    requires i <= |r.claims| && RiskOf(WithClaim(r, i, c)) == RiskOf(r)
    ensures ActionDigest(cfg, WithClaim(r, i, c)) == ActionDigest(cfg, r)
  {
    assert DigestValues(WithClaim(r, i, c), RiskOf(r)) == DigestValues(r, RiskOf(r));
  }

  /** Without an approval at hand, or without raising the risk, one more claim anywhere never opens the
      gate further. */
  lemma ClaimNeverLoosens(cfg: Config, consumed: set<Text>, r: Request, i: nat, c: Claim, now: Text, id: Text)
    requires i <= |r.claims| && (r.approval.None? || RiskOf(WithClaim(r, i, c)) == RiskOf(r))
    ensures Openness(ResultOf(cfg, consumed, WithClaim(r, i, c), now, id).decision)
            <= Openness(ResultOf(cfg, consumed, r, now, id).decision)
  {
    ClaimLoosensExactly(cfg, consumed, r, i, c, now, id);
    if r.approval.Some? {
      SameRiskSameDigest(cfg, r, i, c);
    }
  }

  /** A mutating request of low risk by no agent. */
  const EXAMPLE: Request :=
    Request([], Actor([], [], None, None), [], Resource([], None, None, None, None), true, Some(Low),
            None, None, None, None, [], None)

  const RAISING: Claim := Claim([], Allow, Some(High), None)

  lemma ExampleTexts(r: Request)
    requires r == EXAMPLE.(approval := r.approval)
    ensures DigestText(r, Low) != DigestText(EXAMPLE, High)
    ensures DigestText(WithClaim(r, 0, RAISING), High) == DigestText(EXAMPLE, High)
  {
    DigestTextBinds(r, Low, EXAMPLE, High);
    DigestTextBinds(WithClaim(r, 0, RAISING), High, EXAMPLE, High);
  }

  lemma ExampleRisks(r: Request)
    requires r == EXAMPLE.(approval := r.approval)
    ensures RiskOf(r) == Low && RiskOf(WithClaim(r, 0, RAISING)) == High
    ensures Unobjectionable(WithClaim(r, 0, RAISING))
  {
    var more := WithClaim(r, 0, RAISING);
    assert more.claims == [RAISING];
    RaisedTo(more, RAISING);
    assert |Lit("agent")| == 5;
  }

  lemma DeniedWithoutBinding(cfg: Config, consumed: set<Text>, r: Request, now: Text, id: Text)
    requires r.approval.Some? && r.approval.value.actionDigest != ActionDigest(cfg, r)
    ensures ResultOf(cfg, consumed, r, now, id).decision == Deny
  {
    AllowExactly(cfg, consumed, r, now, id);
    AskedForExactly(cfg, consumed, r, now, id);
  }

  lemma AllowedWithBinding(cfg: Config, r: Request, now: Text, id: Text)
    requires Unobjectionable(r) && r.approval.Some? && Usable(cfg, r, r.approval.value, now)
    ensures ResultOf(cfg, {}, r, now, id).decision == Allow
  {
    AllowExactly(cfg, {}, r, now, id);
  }

  const ZEROS: HexDigest := seq(64, _ => 0x30)

  const ONES: HexDigest := seq(64, _ => 0x31)

  /** A configuration that tells one text from all others; the empty time is late. */
  function Telling(target: Text): Config {
    Config(t => if t == target then ONES else ZEROS, (k, t) => ZEROS, t => Some(if t == [] then 1 else 0), None, false)
  }

  lemma TellingApart(target: Text, other: Text)
    requires other != target
    ensures Telling(target).sha256(target) == ONES && Telling(target).sha256(other) != ONES
  {
    assert ZEROS[0] != ONES[0];
  }

  /** A claim that raises the risk can turn deny into allow: the approval was given for the higher risk. */
  lemma ClaimCanLoosen() returns (cfg: Config, r: Request, now: Text)
    ensures r.claims == [] && RAISING.decision == Allow
    ensures ResultOf(cfg, {}, r, now, []).decision == Deny
    ensures ResultOf(cfg, {}, WithClaim(r, 0, RAISING), now, []).decision == Allow
  {
    now := [0x31];
    r := EXAMPLE.(approval := Some(Approval(Approved, [], [], ONES, None, Some([]), None, None, None)));
    cfg := Telling(DigestText(EXAMPLE, High));
    ExampleTexts(r);
    TellingApart(DigestText(EXAMPLE, High), DigestText(r, Low));
    ApprovalForHigherRisk(cfg, r, now);
  }

  lemma ApprovalForHigherRisk(cfg: Config, r: Request, now: Text)
    requires r == EXAMPLE.(approval := r.approval) && r.approval.Some? && r.approval.value.decision.Approved?
    requires SignatureAccepted(cfg, r.approval.value) && Unexpired(cfg, r.approval.value, now)
    requires cfg.sha256(DigestText(EXAMPLE, High)) == r.approval.value.actionDigest
    requires cfg.sha256(DigestText(r, Low)) != r.approval.value.actionDigest
    ensures ResultOf(cfg, {}, r, now, []).decision == Deny
    ensures ResultOf(cfg, {}, WithClaim(r, 0, RAISING), now, []).decision == Allow
  {
    ExampleTexts(r);
    ExampleRisks(r);
    DeniedWithoutBinding(cfg, {}, r, now, []);
    AllowedWithBinding(cfg, WithClaim(r, 0, RAISING), now, []);
  }

  lemma RaisedTo(r: Request, c: Claim)
    requires r.claims == [c] && r.risk == Some(Low) && c.risk == Some(High)
    ensures RiskOf(r) == High
  {
    assert r.claims[..0] == [];
    assert FoldRisk(Low, r.claims[..0]) == Low;
  }

  // ---------- runs of one gate ----------

  datatype Call = Call(request: Request, now: Text, ticketId: Text)

  /** The consumed keys before call `n` of a run from a fresh gate. */
  ghost function ConsumedBefore(cfg: Config, calls: seq<Call>, n: nat): set<Text>
    requires n <= |calls|
  {
    if n == 0 then {}
    else ConsumedAfter(cfg, ConsumedBefore(cfg, calls, n - 1), calls[n - 1].request, calls[n - 1].now)
  }

  ghost function Answer(cfg: Config, calls: seq<Call>, n: nat): Result
    requires n < |calls|
  {
    ResultOf(cfg, ConsumedBefore(cfg, calls, n), calls[n].request, calls[n].now, calls[n].ticketId)
  }

  ghost predicate IssuesTicket(cfg: Config, calls: seq<Call>, n: nat)
    requires n < |calls|
  {
    Answer(cfg, calls, n).ticket.Some?
  }

  /** The use key with which call `n` bought its ticket, if it did. */
  ghost function KeyBought(cfg: Config, calls: seq<Call>, n: nat): Option<Text>
    requires n < |calls|
  {
    if IssuesTicket(cfg, calls, n) && calls[n].request.approval.Some?
    then Some(UseKey(calls[n].request.approval.value)) else None
  }

  lemma ConsumedStep(cfg: Config, calls: seq<Call>, n: nat)
    requires n < |calls|
    ensures ConsumedBefore(cfg, calls, n + 1)
            == ConsumedBefore(cfg, calls, n)
               + (match KeyBought(cfg, calls, n) case None => {} case Some(key) => {key})
  {
    var c := calls[n];
    AllowExactly(cfg, ConsumedBefore(cfg, calls, n), c.request, c.now, c.ticketId);
  }

  lemma {:induction false} Gathered(sets: seq<set<Text>>, bought: seq<Option<Text>>, key: Text)
    requires |sets| == |bought| + 1 && sets[0] == {}
    requires forall n :: 0 <= n < |bought| ==>
               sets[n + 1] == sets[n] + (match bought[n] case None => {} case Some(k) => {k})
    ensures key in sets[|bought|] <==> Some(key) in bought
  {
    if bought != [] {
      var n := |bought| - 1;
      Gathered(sets[..n + 1], bought[..n], key);
      assert bought == bought[..n] + [bought[n]];
      assert sets[n + 1] == sets[n] + (match bought[n] case None => {} case Some(k) => {k});
    }
  }

  /** The consumed set holds exactly the keys that bought a ticket. */
  lemma ConsumedExactly(cfg: Config, calls: seq<Call>, n: nat, key: Text)
    requires n <= |calls|
    ensures key in ConsumedBefore(cfg, calls, n) <==> exists i :: 0 <= i < n && KeyBought(cfg, calls, i) == Some(key)
  {
    var sets, bought := SetsOf(cfg, calls, n), BoughtBy(cfg, calls, n);
    forall i | 0 <= i < n ensures sets[i + 1] == sets[i] + (match bought[i] case None => {} case Some(k) => {k}) {
      ConsumedStep(cfg, calls, i);
    }
    Gathered(sets, bought, key);
  }

  ghost function SetsOf(cfg: Config, calls: seq<Call>, n: nat): (r: seq<set<Text>>)
    requires n <= |calls|
    ensures |r| == n + 1 && r[0] == {}
    ensures forall i :: 0 <= i <= n ==> r[i] == ConsumedBefore(cfg, calls, i)
  {
    seq(n + 1, i requires 0 <= i < n + 1 => ConsumedBefore(cfg, calls, i))
  }

  ghost function BoughtBy(cfg: Config, calls: seq<Call>, n: nat): (r: seq<Option<Text>>)
    requires n <= |calls|
    ensures |r| == n
    ensures forall i :: 0 <= i < n ==> r[i] == KeyBought(cfg, calls, i)
  {
    seq(n, i requires 0 <= i < n => KeyBought(cfg, calls, i))
  }

  /** In every run, a request that needs a ticket and shows a usable approval gets one exactly when no
      earlier call spent the use key. */
  lemma TicketExactlyWhenUnspent(cfg: Config, calls: seq<Call>, n: nat)
    requires n < |calls| && calls[n].request.approval.Some?
    requires Unobjectionable(calls[n].request) && !TicketFree(calls[n].request)
    requires Usable(cfg, calls[n].request, calls[n].request.approval.value, calls[n].now)
    ensures IssuesTicket(cfg, calls, n)
            <==> forall i :: 0 <= i < n ==> KeyBought(cfg, calls, i) != Some(UseKey(calls[n].request.approval.value))
  {
    var c := calls[n];
    AllowExactly(cfg, ConsumedBefore(cfg, calls, n), c.request, c.now, c.ticketId);
    ConsumedExactly(cfg, calls, n, UseKey(c.request.approval.value));
  }

  /** In every run, two tickets are never bought with the same use key. */
  lemma TicketOncePerUseKey(cfg: Config, calls: seq<Call>, i: nat, j: nat)
    requires i < j < |calls| && IssuesTicket(cfg, calls, i) && IssuesTicket(cfg, calls, j)
    ensures calls[i].request.approval.Some? && calls[j].request.approval.Some?
    ensures var a, b := calls[i].request.approval.value, calls[j].request.approval.value;
            && UseKey(a) != UseKey(b)
            && !(a.approvalId == b.approvalId && a.actionDigest == b.actionDigest && a.issuer == b.issuer
                 && NormalizedSignature(a.signature) == NormalizedSignature(b.signature))
  {
    AllowExactly(cfg, ConsumedBefore(cfg, calls, i), calls[i].request, calls[i].now, calls[i].ticketId);
    AllowExactly(cfg, ConsumedBefore(cfg, calls, j), calls[j].request, calls[j].now, calls[j].ticketId);
    var a, b := calls[i].request.approval.value, calls[j].request.approval.value;
    assert KeyBought(cfg, calls, i) == Some(UseKey(a));
    ConsumedExactly(cfg, calls, j, UseKey(b));
    UseKeyUnambiguous(a, b);
  }

  /** With a signing secret, one signed payload buys one ticket, however its signature is spelled. */
  lemma TicketOncePerSignedPayload(cfg: Config, calls: seq<Call>, i: nat, j: nat)
    requires cfg.secret.Some?
    requires i < j < |calls| && IssuesTicket(cfg, calls, i) && IssuesTicket(cfg, calls, j)
    ensures calls[i].request.approval.Some? && calls[j].request.approval.Some?
    ensures !SameSignedParts(calls[i].request.approval.value, calls[j].request.approval.value)
  {
    TicketOncePerUseKey(cfg, calls, i, j);
    AllowExactly(cfg, ConsumedBefore(cfg, calls, i), calls[i].request, calls[i].now, calls[i].ticketId);
    AllowExactly(cfg, ConsumedBefore(cfg, calls, j), calls[j].request, calls[j].now, calls[j].ticketId);
    var a, b := calls[i].request.approval.value, calls[j].request.approval.value;
    SignatureTextBinds(a, b);
    assert VerifySignature(cfg, a, cfg.secret.value) && VerifySignature(cfg, b, cfg.secret.value);
  }

  /** Two tickets with one digest speak for the same bound parts, unless two different texts
      share a SHA-256 value. */
  lemma TicketsSpeakForBoundParts(cfg: Config, calls: seq<Call>, i: nat, j: nat)
    requires i < |calls| && j < |calls| && IssuesTicket(cfg, calls, i) && IssuesTicket(cfg, calls, j)
    requires ValidRequest(calls[i].request) && ValidRequest(calls[j].request)
    requires Answer(cfg, calls, i).ticket.value.actionDigest == Answer(cfg, calls, j).ticket.value.actionDigest
    ensures var r, s := calls[i].request, calls[j].request;
            || SameBoundParts(r, RiskOf(r), s, RiskOf(s))
            || (&& DigestText(r, RiskOf(r)) != DigestText(s, RiskOf(s))
                && cfg.sha256(DigestText(r, RiskOf(r))) == cfg.sha256(DigestText(s, RiskOf(s))))
  {
    var r, s := calls[i].request, calls[j].request;
    AllowExactly(cfg, ConsumedBefore(cfg, calls, i), r, calls[i].now, calls[i].ticketId);
    AllowExactly(cfg, ConsumedBefore(cfg, calls, j), s, calls[j].now, calls[j].ticketId);
    DigestTextBinds(r, RiskOf(r), s, RiskOf(s));
  }
}

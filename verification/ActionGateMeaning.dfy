/**
 What the gate answers, and what the texts behind digests and signatures say, in words that do not
 use the gate's own definitions.
 */
module ActionGateMeaning {
  import opened Common
  import opened Utf16
  import opened Blanks
  import J = CanonicalJson
  import CanonicalJsonProofs
  import JsonReader
  import opened ActionGate
  import opened ActionGateProofs

  // ---------- reserved actions ----------

  predicate AllBlank(t: Text) { forall i :: 0 <= i < |t| ==> IsBlank(t[i]) }

  /** `t` is the lower-case word `w`, in any mixture of cases. */
  ghost predicate Spells(t: Text, w: string) {
    && |t| == |w|
    && forall i :: 0 <= i < |w| ==> t[i] == w[i] as int || ('a' <= w[i] <= 'z' && t[i] == w[i] as int - 32)
  }

  ghost predicate IsApprovalWord(t: Text) {
    Spells(t, "approve") || Spells(t, "deny") || Spells(t, "system.approve") || Spells(t, "system.deny")
  }

  /** `t` is a word between blanks. */
  ghost predicate IsPadded(t: Text, before: Text, core: Text, behind: Text) {
    t == before + core + behind && AllBlank(before) && AllBlank(behind)
  }

  /** An agent asks to approve or deny. */
  ghost predicate AsksToApprove(r: Request) {
    && |r.actor.kind| == 5 && r.actor.kind == [0x61, 0x67, 0x65, 0x6E, 0x74]
    && exists before, core, behind :: IsPadded(r.action, before, core, behind) && IsApprovalWord(core)
  }

  lemma {:induction false} TrimStartPads(t: Text) returns (before: Text)
    ensures t == before + TrimStart(t) && AllBlank(before)
    ensures TrimStart(t) == [] || !IsBlank(TrimStart(t)[0])
  {
    before := [];
    if t != [] {
      BlankMeans(t[0]);
      if IsSpace(t[0]) {
        var b := TrimStartPads(t[1..]);
        before := [t[0]] + b;
        assert t == [t[0]] + t[1..];
      }
    }
  }

  lemma {:induction false} TrimEndPads(t: Text) returns (behind: Text)
    ensures t == TrimEnd(t) + behind && AllBlank(behind)
    ensures TrimEnd(t) == [] || !IsBlank(TrimEnd(t)[|TrimEnd(t)| - 1])
  {
    behind := [];
    if t != [] {
      var n := |t| - 1;
      BlankMeans(t[n]);
      if IsSpace(t[n]) {
        var b := TrimEndPads(t[..n]);
        behind := b + [t[n]];
        assert t == t[..n] + [t[n]];
      }
    }
  }

  lemma TrimPads(t: Text) returns (before: Text, behind: Text)
    ensures IsPadded(t, before, Trim(t), behind)
  {
    before := TrimStartPads(t);
    behind := TrimEndPads(TrimStart(t));
  }

  lemma {:induction false} TrimStartOf(before: Text, rest: Text)
    requires AllBlank(before) && (rest == [] || !IsBlank(rest[0]))
    ensures TrimStart(before + rest) == rest
  {
    if before == [] {
      assert before + rest == rest;
      if rest != [] { BlankMeans(rest[0]); }
    } else {
      BlankMeans(before[0]);
      TrimStartOf(before[1..], rest);
      assert (before + rest)[1..] == before[1..] + rest;
    }
  }

  lemma {:induction false} TrimEndOf(rest: Text, behind: Text)
    requires AllBlank(behind) && (rest == [] || !IsBlank(rest[|rest| - 1]))
    ensures TrimEnd(rest + behind) == rest
  {
    if behind == [] {
      assert rest + behind == rest;
      if rest != [] { BlankMeans(rest[|rest| - 1]); }
    } else {
      var n := |behind| - 1;
      BlankMeans(behind[n]);
      TrimEndOf(rest, behind[..n]);
      assert (rest + behind)[..|rest + behind| - 1] == rest + behind[..n];
    }
  }

  lemma TrimOf(before: Text, core: Text, behind: Text)
    requires AllBlank(before) && AllBlank(behind) && core != [] && !IsBlank(core[0]) && !IsBlank(core[|core| - 1])
    ensures Trim(before + core + behind) == core
  {
    assert before + core + behind == before + (core + behind);
    TrimStartOf(before, core + behind);
    TrimEndOf(core, behind);
  }

  lemma SpellsMeans(t: Text, w: string)
    requires forall i :: 0 <= i < |w| ==> 'a' <= w[i] <= 'z' || w[i] == '.'
    ensures Lower(t) == Lit(w) <==> Spells(t, w)
    ensures Spells(t, w) ==> forall i :: 0 <= i < |t| ==> !IsBlank(t[i])
  {
    if Lower(t) == Lit(w) {
      assert forall i :: 0 <= i < |w| ==> LowerUnit(t[i]) == Lit(w)[i];
    }
    if Spells(t, w) {
      assert forall i :: 0 <= i < |w| ==> Lower(t)[i] == Lit(w)[i];
    }
  }

  lemma ApprovalWordMeans(t: Text)
    ensures Lower(t) in RESERVED_ACTIONS <==> IsApprovalWord(t)
    ensures IsApprovalWord(t) ==> t != [] && forall i :: 0 <= i < |t| ==> !IsBlank(t[i])
  {
    SpellsMeans(t, "approve");
    SpellsMeans(t, "deny");
    SpellsMeans(t, "system.approve");
    SpellsMeans(t, "system.deny");
  }

  lemma AgentMeans(kind: Text)
    ensures kind == Lit("agent") <==> |kind| == 5 && kind == [0x61, 0x67, 0x65, 0x6E, 0x74]
  {
    assert Lit("agent") == [0x61, 0x67, 0x65, 0x6E, 0x74];
  }

  lemma ReservedMeans(r: Request)
    ensures IsReserved(r) <==> AsksToApprove(r)
  {
    AgentMeans(r.actor.kind);
    if IsReserved(r) {
      var before, behind := TrimPads(r.action);
      ApprovalWordMeans(Trim(r.action));
      assert IsPadded(r.action, before, Trim(r.action), behind);
    }
    if AsksToApprove(r) {
      var before, core, behind :| IsPadded(r.action, before, core, behind) && IsApprovalWord(core);
      ApprovalWordMeans(core);
      TrimOf(before, core, behind);
    }
  }

  // ---------- risk ----------

  /** The order of risks: read-only, low, medium, high, critical. */
  predicate AtMost(a: Risk, b: Risk) {
    || a == b || a == ReadOnly || b == Critical
    || (a == Low && (b == Medium || b == High)) || (a == Medium && b == High)
  }

  ghost function StatedRisk(r: Request): Risk {
    match r.risk
    case Some(k) => k
    case None => if r.mutating then Medium else ReadOnly
  }

  /** The risk is the highest of the stated and all claimed ones. */
  lemma RiskIsHighest(r: Request)
    ensures RiskOf(r) == StatedRisk(r) || exists c :: c in r.claims && c.risk == Some(RiskOf(r))
    ensures AtMost(StatedRisk(r), RiskOf(r))
    ensures forall c :: c in r.claims && c.risk.Some? ==> AtMost(c.risk.value, RiskOf(r))
  {
    FoldRiskIsMaximum(BaseRisk(r), r.claims);
  }

  // ---------- answers ----------

  /** A ticket is needed: a mutation, a high risk, or a guard that asks for approval. */
  ghost predicate NeedsTicket(r: Request, risk: Risk) {
    || r.mutating || risk == High || risk == Critical
    || exists i :: 0 <= i < |r.claims| && r.claims[i].decision == RequiresApproval
  }

  ghost predicate NobodyDenies(r: Request) {
    !AsksToApprove(r) && forall i :: 0 <= i < |r.claims| ==> r.claims[i].decision != Deny
  }

  predicate IsHex(c: CodeUnit) { 0x30 <= c <= 0x39 || 0x41 <= c <= 0x46 || 0x61 <= c <= 0x66 }

  /** The same hexadecimal digit, the second in lower case. */
  predicate SameDigit(c: CodeUnit, lower: CodeUnit) { c == lower || (0x41 <= c <= 0x46 && c + 32 == lower) }

  /** The approval names the gate as its issuer and carries the gate's signature in 64 hexadecimal digits. */
  ghost predicate CarriesSignature(cfg: Config, a: Approval) {
    && cfg.secret.Some? && a.issuer == Some(FridayCanonicalGate) && a.signature.Some?
    && var sig, expected := a.signature.value, cfg.hmac(cfg.secret.value, SignatureText(a));
       |sig| == 64 && forall i :: 0 <= i < 64 ==> IsHex(sig[i]) && SameDigit(sig[i], expected[i])
  }

  lemma SignatureMeans(cfg: Config, a: Approval)
    ensures cfg.secret.Some? && VerifySignature(cfg, a, cfg.secret.value) <==> CarriesSignature(cfg, a)
  {
    if cfg.secret.Some? && a.signature.Some? && |a.signature.value| == 64 {
      var sig, expected := a.signature.value, cfg.hmac(cfg.secret.value, SignatureText(a));
      assert IsHexDigest(expected);
      if CarriesSignature(cfg, a) {
        assert forall i :: 0 <= i < 64 ==> IsHexUnit(sig[i]) && Lower(sig)[i] == expected[i];
        assert Lower(sig) == expected;
      }
      if VerifySignature(cfg, a, cfg.secret.value) {
        assert a.issuer.value == FridayCanonicalGate && Lower(sig) == expected;
        assert forall i :: 0 <= i < 64 ==> Lower(sig)[i] == expected[i];
        assert forall i :: 0 <= i < 64 ==> IsHexUnit(sig[i]);
      }
    }
  }

  ghost predicate Tells(res: Result, decision: Decision, reason: Reason, denier: Option<Denier>, required: bool) {
    res.decision == decision && res.reason == reason && res.deniedBy == denier && res.approvalRequired == required
  }

  /** An agent that asks to approve or deny is refused by the gate, and nobody else is for that reason. */
  lemma ReservedExactly(cfg: Config, consumed: set<Text>, r: Request, now: Text, id: Text)
    ensures Tells(ResultOf(cfg, consumed, r, now, id), Deny, Code(ReservedAction), Some(CanonicalGate), false)
            <==> AsksToApprove(r)
    ensures AsksToApprove(r) ==> ResultOf(cfg, consumed, r, now, id).ticket.None?
  {
    ReservedMeans(r);
    OnlyReserved(cfg, consumed, r, RiskOf(r), ActionDigest(cfg, r), now, id);
  }

  lemma OnlyReserved(cfg: Config, consumed: set<Text>, r: Request, risk: Risk, digest: Text, now: Text, id: Text)
    ensures Reported(cfg, consumed, r, risk, digest, now, id).reason == Code(ReservedAction) <==> IsReserved(r)
    ensures IsReserved(r) ==>
              var res := Reported(cfg, consumed, r, risk, digest, now, id);
              Tells(res, Deny, Code(ReservedAction), Some(CanonicalGate), false) && res.ticket.None?
  {}

  lemma {:induction false} FirstDenyMeans(claims: seq<Claim>, i: nat)
    requires i < |claims| && claims[i].decision == Deny && forall j :: 0 <= j < i ==> claims[j].decision != Deny
    ensures HasClaim(claims, Deny) && FirstDeny(claims) == claims[i]
  {
    if i > 0 {
      FirstDenyMeans(claims[1..], i - 1);
      assert claims[i] == claims[1..][i - 1];
    }
  }

  /** The first guard that denies is named, with its words if it has any. */
  lemma GuardDenies(cfg: Config, consumed: set<Text>, r: Request, now: Text, id: Text, i: nat)
    requires !AsksToApprove(r) && i < |r.claims| && r.claims[i].decision == Deny
    requires forall j :: 0 <= j < i ==> r.claims[j].decision != Deny
    ensures var res, c := ResultOf(cfg, consumed, r, now, id), r.claims[i];
            var reason := match c.reason case None => Code(LocallyDenied) case Some(words) => Stated(words);
            Tells(res, Deny, reason, Some(Guard(c.guardId)), false) && res.ticket.None?
  {
    ReservedMeans(r);
    FirstDenyMeans(r.claims, i);
  }

  lemma OpenMeans(r: Request)
    ensures NobodyDenies(r) <==> !IsReserved(r) && !HasClaim(r.claims, Deny)
    ensures forall risk :: NeedsTicket(r, risk) <==> RequiresCanonicalApproval(r, risk)
  {
    ReservedMeans(r);
  }

  /** An approval that was given for something else, or that denies. */
  lemma ApprovalRefused(cfg: Config, consumed: set<Text>, r: Request, now: Text, id: Text)
    requires NobodyDenies(r) && r.approval.Some?
    ensures var res, a := ResultOf(cfg, consumed, r, now, id), r.approval.value;
            var needed, bound := NeedsTicket(r, RiskOf(r)), a.actionDigest == ActionDigest(cfg, r);
            && (!bound ==> Tells(res, Deny, Code(DigestMismatch), Some(CanonicalGate), needed))
            && (bound && a.decision.Denied? ==>
                var reason := match a.reason case None => Code(ApprovalDenied) case Some(words) => Stated(words);
                Tells(res, Deny, reason, Some(CanonicalGate), needed))
  {
    OpenMeans(r);
    RefusedReport(cfg, consumed, r, RiskOf(r), ActionDigest(cfg, r), now, id);
  }

  lemma RefusedReport(cfg: Config, consumed: set<Text>, r: Request, risk: Risk, digest: Text, now: Text, id: Text)
    requires !IsReserved(r) && !HasClaim(r.claims, Deny) && r.approval.Some?
    ensures var res, a := Reported(cfg, consumed, r, risk, digest, now, id), r.approval.value;
            var needed := RequiresCanonicalApproval(r, risk);
            && (a.actionDigest != digest ==> Tells(res, Deny, Code(DigestMismatch), Some(CanonicalGate), needed))
            && (a.actionDigest == digest && a.decision.Denied? ==>
                var reason := match a.reason case None => Code(ApprovalDenied) case Some(words) => Stated(words);
                Tells(res, Deny, reason, Some(CanonicalGate), needed))
  {}

  /** An approval for this request that is not signed as demanded, or out of time. */
  lemma ApprovalFaulty(cfg: Config, consumed: set<Text>, r: Request, now: Text, id: Text)
    requires NobodyDenies(r) && r.approval.Some? && r.approval.value.decision.Approved?
    requires r.approval.value.actionDigest == ActionDigest(cfg, r)
    ensures var res, a := ResultOf(cfg, consumed, r, now, id), r.approval.value;
            var needed := NeedsTicket(r, RiskOf(r));
            var signed := cfg.requireSignature || cfg.secret.Some? ==> CarriesSignature(cfg, a);
            var timed := a.expiresAt.Some? && cfg.parseTime(a.expiresAt.value).Some? && cfg.parseTime(now).Some?;
            && (!signed ==> Tells(res, Deny, Code(SignatureInvalid), Some(CanonicalGate), needed))
            && (signed && a.expiresAt.None? ==> Tells(res, Deny, Code(ExpirationRequired), Some(CanonicalGate), needed))
            && (signed && a.expiresAt.Some? && !timed ==>
                Tells(res, Deny, Code(ExpirationInvalid), Some(CanonicalGate), needed))
            && (signed && timed && cfg.parseTime(a.expiresAt.value).value <= cfg.parseTime(now).value ==>
                Tells(res, Deny, Code(Expired), Some(CanonicalGate), needed))
  {
    OpenMeans(r);
    SignatureMeans(cfg, r.approval.value);
    FaultyReport(cfg, consumed, r, RiskOf(r), ActionDigest(cfg, r), now, id);
  }

  lemma FaultyReport(cfg: Config, consumed: set<Text>, r: Request, risk: Risk, digest: Text, now: Text, id: Text)
    requires !IsReserved(r) && !HasClaim(r.claims, Deny) && r.approval.Some?
    requires r.approval.value.decision.Approved? && r.approval.value.actionDigest == digest
    ensures var res, a := Reported(cfg, consumed, r, risk, digest, now, id), r.approval.value;
            var needed := RequiresCanonicalApproval(r, risk);
            var demanded := cfg.requireSignature || cfg.secret.Some?;
            var signed := demanded ==> cfg.secret.Some? && VerifySignature(cfg, a, cfg.secret.value);
            var timed := a.expiresAt.Some? && cfg.parseTime(a.expiresAt.value).Some? && cfg.parseTime(now).Some?;
            && (!signed ==> Tells(res, Deny, Code(SignatureInvalid), Some(CanonicalGate), needed))
            && (signed && a.expiresAt.None? ==> Tells(res, Deny, Code(ExpirationRequired), Some(CanonicalGate), needed))
            && (signed && a.expiresAt.Some? && !timed ==>
                Tells(res, Deny, Code(ExpirationInvalid), Some(CanonicalGate), needed))
            && (signed && timed && cfg.parseTime(a.expiresAt.value).value <= cfg.parseTime(now).value ==>
                Tells(res, Deny, Code(Expired), Some(CanonicalGate), needed))
  {}

  /** The approval at hand is good for this request at this time. */
  ghost predicate GoodFor(cfg: Config, r: Request, a: Approval, now: Text) {
    && a.decision.Approved? && a.actionDigest == ActionDigest(cfg, r)
    && (cfg.requireSignature || cfg.secret.Some? ==> CarriesSignature(cfg, a))
    && a.expiresAt.Some? && cfg.parseTime(a.expiresAt.value).Some? && cfg.parseTime(now).Some?
    && cfg.parseTime(now).value < cfg.parseTime(a.expiresAt.value).value
  }

  lemma GoodMeans(cfg: Config, r: Request, a: Approval, now: Text)
    ensures GoodFor(cfg, r, a, now) <==> Usable(cfg, r, a, now)
  {
    SignatureMeans(cfg, a);
  }

  /** A request that nobody denies and whose approval, if it shows one, is good: allowed at once when it needs
      no ticket, sent for approval when it shows none, refused when its approval is spent, and otherwise given
      a ticket that says what the request and the approval say. */
  lemma OtherwiseAnswered(cfg: Config, consumed: set<Text>, r: Request, now: Text, id: Text)
    requires NobodyDenies(r) && (r.approval.Some? ==> GoodFor(cfg, r, r.approval.value, now))
    ensures var res, needed := ResultOf(cfg, consumed, r, now, id), NeedsTicket(r, RiskOf(r));
            && (!needed ==> Tells(res, Allow, Code(AllowedWithoutTicket), None, false) && res.ticket.None?)
            && (needed && r.approval.None? ==>
                Tells(res, RequiresApproval, Code(ApprovalNeeded), None, true) && res.ticket.None?)
            && (needed && r.approval.Some? && UseKey(r.approval.value) in consumed ==>
                Tells(res, Deny, Code(AlreadyUsed), Some(CanonicalGate), true) && res.ticket.None?)
            && (needed && r.approval.Some? && UseKey(r.approval.value) !in consumed ==>
                Tells(res, Allow, Code(TicketIssued), None, true)
                && res.ticket.Some? && TicketSays(res.ticket.value, cfg, r, r.approval.value, now, id))
  {
    OpenMeans(r);
    if r.approval.Some? {
      GoodMeans(cfg, r, r.approval.value, now);
    }
    OtherReport(cfg, consumed, r, RiskOf(r), ActionDigest(cfg, r), now, id);
  }

  ghost predicate TicketSays(t: Ticket, cfg: Config, r: Request, a: Approval, now: Text, id: Text) {
    && t.ticketId == id && t.issuedAt == now
    && t.actionDigest == ActionDigest(cfg, r) && t.risk == RiskOf(r)
    && t.action == r.action && t.actor == r.actor && t.surface == r.surface && t.resource == r.resource
    && t.planDigest == r.planDigest && t.idempotencyKey == r.idempotencyKey
    && t.approvalId == a.approvalId && t.approvedBy == a.decidedBy
    && t.expiresAt == a.expiresAt && t.childOf == a.childOf
  }

  lemma OtherReport(cfg: Config, consumed: set<Text>, r: Request, risk: Risk, digest: Text, now: Text, id: Text)
    requires !IsReserved(r) && !HasClaim(r.claims, Deny)
    requires r.approval.Some? ==> ApprovalFault(cfg, digest, r.approval.value, now).None?
    ensures var res, needed := Reported(cfg, consumed, r, risk, digest, now, id), RequiresCanonicalApproval(r, risk);
            && (!needed ==> Tells(res, Allow, Code(AllowedWithoutTicket), None, false) && res.ticket.None?)
            && (needed && r.approval.None? ==>
                Tells(res, RequiresApproval, Code(ApprovalNeeded), None, true) && res.ticket.None?)
            && (needed && r.approval.Some? && UseKey(r.approval.value) in consumed ==>
                Tells(res, Deny, Code(AlreadyUsed), Some(CanonicalGate), true) && res.ticket.None?)
            && (needed && r.approval.Some? && UseKey(r.approval.value) !in consumed ==>
                Tells(res, Allow, Code(TicketIssued), None, true)
                && res.ticket == Some(TicketFor(r, risk, digest, r.approval.value, now, id)))
  {}

  // ---------- what the texts say ----------

  type Meaning = J.Meaning

  /** The canonical text of a value is a JSON text that means what the value means. */
  lemma StableTextReads(v: Value) returns (j: J.Json)
    requires J.Valid(v)
    ensures JsonReader.Parse(J.StableStringify(v)) == Some(j) && CanonicalJsonProofs.JsonMeaning(j) == J.MeaningOf(v)
  {
    j := J.Normalize(v);
    CanonicalJsonProofs.ParsePrint(j);
    CanonicalJsonProofs.NormalizeKeepsMeaning(v);
  }

  /** The member of that name. */
  ghost function Field(m: Meaning, name: string): Option<Meaning> {
    if m.MObject? && Lit(name) in m.fields then Some(m.fields[Lit(name)]) else None
  }

  /** No members but those of these names. */
  ghost predicate Only(m: Meaning, names: seq<string>) {
    m.MObject? && forall key :: key in m.fields ==> exists i :: 0 <= i < |names| && key == Lit(names[i])
  }

  ghost function Text(t: Text): Option<Meaning> { Some(J.MString(t)) }

  ghost function OptionalText(o: Option<Text>): Option<Meaning> {
    match o
    case None => None
    case Some(t) => Text(t)
  }

  ghost function OptionalRecord(o: Option<Value>): Option<Meaning> {
    match o
    case None => None
    case Some(v) => Some(J.MeaningOf(v))
  }

  lemma RecordField(keys: seq<Text>, vs: seq<Value>, i: nat, name: string)
    requires Distinct(keys) && |vs| == |keys| && i < |keys| && keys[i] == Lit(name)
    ensures Field(J.MeaningOf(Record(keys, vs)), name) == if Shown(vs[i]) then Some(J.MeaningOf(vs[i])) else None
  {
    var ms := Record(keys, vs).members;
    FieldOf(ms, i);
    assert ms[i].key != Lit("__proto__");
  }

  lemma {:induction false} FieldsHaveNames(ms: seq<J.Member>, key: Text)
    requires key in J.FieldMeanings(ms)
    ensures exists i :: 0 <= i < |ms| && ms[i].key == key
  {
    if ms[0].key != key {
      FieldsHaveNames(ms[1..], key);
      var i :| 0 <= i < |ms[1..]| && ms[1..][i].key == key;
      assert ms[i + 1].key == key;
    }
  }

  lemma RecordOnly(keys: seq<Text>, vs: seq<Value>, names: seq<string>)
    requires |vs| == |keys| == |names| && forall i :: 0 <= i < |names| ==> keys[i] == Lit(names[i])
    ensures Only(J.MeaningOf(Record(keys, vs)), names)
  {
    var ms := Record(keys, vs).members;
    forall key | key in J.FieldMeanings(ms) ensures exists i :: 0 <= i < |names| && key == Lit(names[i]) {
      FieldsHaveNames(ms, key);
      var i :| 0 <= i < |ms| && ms[i].key == key;
      assert keys[i] == Lit(names[i]);
    }
  }

  /** The names of risks. */
  function RiskName(k: Risk): string {
    match k
    case ReadOnly => "read_only"
    case Low => "low"
    case Medium => "medium"
    case High => "high"
    case Critical => "critical"
  }

  ghost predicate ActorSays(m: Meaning, a: Actor) {
    && Only(m, ["kind", "id", "principalId"])
    && Field(m, "kind") == Text(a.kind) && Field(m, "id") == Text(a.id)
    && Field(m, "principalId") == OptionalText(a.principalId)
  }

  lemma ActorReads(a: Actor)
    ensures ActorSays(J.MeaningOf(Record(ActorKeys(), ActorValues(a))), a)
  {
    var keys, vs := ActorKeys(), ActorValues(a);
    ActorKeysDistinct();
    RecordOnly(keys, vs, ["kind", "id", "principalId"]);
    RecordField(keys, vs, 0, "kind");
    RecordField(keys, vs, 1, "id");
    RecordField(keys, vs, 2, "principalId");
  }

  ghost predicate ResourceSays(m: Meaning, r: Resource) {
    && Only(m, ["type", "id", "digest", "attributes"])
    && Field(m, "type") == Text(r.kind) && Field(m, "id") == OptionalText(r.id)
    && Field(m, "digest") == OptionalText(r.digest) && Field(m, "attributes") == OptionalRecord(r.attributes)
  }

  lemma ResourceFields(r: Resource)
    requires IsRecord(r.attributes)
    ensures var m := J.MeaningOf(Record(ResourceKeys(), ResourceValues(r)));
            && Field(m, "type") == Text(r.kind) && Field(m, "id") == OptionalText(r.id)
            && Field(m, "digest") == OptionalText(r.digest) && Field(m, "attributes") == OptionalRecord(r.attributes)
  {
    var keys, vs := ResourceKeys(), ResourceValues(r);
    ResourceKeysDistinct();
    RecordField(keys, vs, 0, "type");
    RecordField(keys, vs, 1, "id");
    RecordField(keys, vs, 2, "digest");
    RecordField(keys, vs, 3, "attributes");
  }

  lemma ResourceReads(r: Resource)
    requires IsRecord(r.attributes)
    ensures ResourceSays(J.MeaningOf(Record(ResourceKeys(), ResourceValues(r))), r)
  {
    ResourceFields(r);
    RecordOnly(ResourceKeys(), ResourceValues(r), ["type", "id", "digest", "attributes"]);
  }

  ghost predicate RollbackSays(m: Meaning, r: Rollback) {
    && Only(m, ["planned", "planDigest", "actions"])
    && Field(m, "planned") == Some(J.MBool(r.planned)) && Field(m, "planDigest") == OptionalText(r.planDigest)
    && Field(m, "actions") == (match r.actions case None => None case Some(ts) => Some(J.MArray(TextMeanings(ts))))
  }

  ghost function TextMeanings(ts: seq<Text>): seq<Meaning> {
    seq(|ts|, i requires 0 <= i < |ts| => J.MString(ts[i]))
  }

  lemma {:induction false} TextArrayReads(ts: seq<Text>)
    ensures J.ItemMeanings(TextArray(ts)) == TextMeanings(ts)
  {
    if ts != [] {
      assert TextArray(ts)[1..] == TextArray(ts[1..]);
      TextArrayReads(ts[1..]);
    }
  }

  lemma RollbackFields(r: Rollback)
    ensures var m := J.MeaningOf(Record(RollbackKeys(), RollbackValues(r)));
            && Field(m, "planned") == Some(J.MBool(r.planned)) && Field(m, "planDigest") == OptionalText(r.planDigest)
            && Field(m, "actions")
               == (match r.actions case None => None case Some(ts) => Some(J.MArray(TextMeanings(ts))))
  {
    var keys, vs := RollbackKeys(), RollbackValues(r);
    RollbackKeysDistinct();
    RecordField(keys, vs, 0, "planned");
    RecordField(keys, vs, 1, "planDigest");
    RecordField(keys, vs, 2, "actions");
    if r.actions.Some? {
      TextArrayReads(r.actions.value);
    }
  }

  lemma RollbackReads(r: Rollback)
    ensures RollbackSays(J.MeaningOf(Record(RollbackKeys(), RollbackValues(r))), r)
  {
    RollbackFields(r);
    RecordOnly(RollbackKeys(), RollbackValues(r), ["planned", "planDigest", "actions"]);
  }

  /** The names of the members of the hashed record. */
  const DIGEST_NAMES: seq<string> :=
    ["version", "action", "actor", "surface", "resource", "mutating", "risk", "parameters", "planDigest", "rollback",
     "idempotencyKey"]

  ghost predicate DigestSays(m: Meaning, r: Request, k: Risk) {
    && Only(m, DIGEST_NAMES)
    && Field(m, "version") == Some(J.MNumber([0x31])) && Field(m, "action") == Text(r.action)
    && Field(m, "actor").Some? && ActorSays(Field(m, "actor").value, r.actor)
    && Field(m, "surface") == Text(r.surface)
    && Field(m, "resource").Some? && ResourceSays(Field(m, "resource").value, r.resource)
    && Field(m, "mutating") == Some(J.MBool(r.mutating)) && Field(m, "risk") == Text(Lit(RiskName(k)))
    && Field(m, "parameters") == OptionalRecord(r.parameters)
    && Field(m, "planDigest") == OptionalText(r.planDigest)
    && (r.rollback.None? ==> Field(m, "rollback").None?)
    && (r.rollback.Some? ==> Field(m, "rollback").Some? && RollbackSays(Field(m, "rollback").value, r.rollback.value))
    && Field(m, "idempotencyKey") == OptionalText(r.idempotencyKey)
  }

  lemma DigestField(r: Request, k: Risk, i: nat, name: string)
    requires i < 11 && DigestKeys()[i] == Lit(name)
    ensures var v := DigestValues(r, k)[i];
            Field(J.MeaningOf(DigestPayload(r, k)), name) == if Shown(v) then Some(J.MeaningOf(v)) else None
  {
    DigestKeysDistinct();
    RecordField(DigestKeys(), DigestValues(r, k), i, name);
  }

  lemma DigestTexts(r: Request, k: Risk)
    ensures var m := J.MeaningOf(DigestPayload(r, k));
            && Field(m, "version") == Some(J.MNumber([0x31])) && Field(m, "action") == Text(r.action)
            && Field(m, "surface") == Text(r.surface) && Field(m, "mutating") == Some(J.MBool(r.mutating))
            && Field(m, "risk") == Text(Lit(RiskName(k)))
  {
    DigestField(r, k, 0, "version");
    DigestField(r, k, 1, "action");
    DigestField(r, k, 3, "surface");
    DigestField(r, k, 5, "mutating");
    DigestField(r, k, 6, "risk");
  }

  lemma DigestOptionals(r: Request, k: Risk)
    requires ValidRequest(r)
    ensures var m := J.MeaningOf(DigestPayload(r, k));
            && Field(m, "parameters") == OptionalRecord(r.parameters)
            && Field(m, "planDigest") == OptionalText(r.planDigest)
            && Field(m, "idempotencyKey") == OptionalText(r.idempotencyKey)
  {
    DigestField(r, k, 7, "parameters");
    DigestField(r, k, 8, "planDigest");
    DigestField(r, k, 10, "idempotencyKey");
  }

  lemma DigestRecords(r: Request, k: Risk)
    requires ValidRequest(r)
    ensures var m := J.MeaningOf(DigestPayload(r, k));
            && Field(m, "actor").Some? && ActorSays(Field(m, "actor").value, r.actor)
            && Field(m, "resource").Some? && ResourceSays(Field(m, "resource").value, r.resource)
            && (r.rollback.None? ==> Field(m, "rollback").None?)
            && (r.rollback.Some? ==>
                Field(m, "rollback").Some? && RollbackSays(Field(m, "rollback").value, r.rollback.value))
  {
    DigestField(r, k, 2, "actor");
    DigestField(r, k, 4, "resource");
    DigestField(r, k, 9, "rollback");
    ActorReads(r.actor);
    ResourceReads(r.resource);
    if r.rollback.Some? {
      RollbackReads(r.rollback.value);
    }
  }

  lemma DigestNames(r: Request, k: Risk)
    ensures Only(J.MeaningOf(DigestPayload(r, k)), DIGEST_NAMES)
  {
    RecordOnly(DigestKeys(), DigestValues(r, k), DIGEST_NAMES);
  }

  /** The hashed text is a JSON record with exactly these members, each saying what the request says. */
  lemma DigestTextSays(r: Request, k: Risk) returns (j: J.Json)
    requires ValidRequest(r)
    ensures JsonReader.Parse(DigestText(r, k)) == Some(j) && DigestSays(CanonicalJsonProofs.JsonMeaning(j), r, k)
  {
    DigestPayloadValid(r, k);
    j := StableTextReads(DigestPayload(r, k));
    DigestNames(r, k);
    DigestTexts(r, k);
    DigestOptionals(r, k);
    DigestRecords(r, k);
  }

  ghost predicate DigestOf(cfg: Config, r: Request, digest: Text, text: Text, j: J.Json) {
    && digest == cfg.sha256(text) && JsonReader.Parse(text) == Some(j)
    && DigestSays(CanonicalJsonProofs.JsonMeaning(j), r, RiskOf(r))
  }

  /** Every answer names the request's risk, its claims and its digest, and the digest is that of such a text. */
  lemma ResultCarries(cfg: Config, consumed: set<Text>, r: Request, now: Text, id: Text)
    requires ValidRequest(r)
    ensures var res := ResultOf(cfg, consumed, r, now, id);
            && res.risk == RiskOf(r) && res.claims == r.claims
            && exists text, j :: DigestOf(cfg, r, res.actionDigest, text, j)
  {
    var j := DigestTextSays(r, RiskOf(r));
    assert DigestOf(cfg, r, ActionDigest(cfg, r), DigestText(r, RiskOf(r)), j);
  }

  const SIGNATURE_NAMES: seq<string> :=
    ["version", "decision", "approvalId", "decidedByPrincipalId", "actionDigest", "reason", "expiresAt",
     "childOfLifecycleTicketId"]

  ghost predicate SignatureSays(m: Meaning, a: Approval) {
    && Only(m, SIGNATURE_NAMES)
    && Field(m, "version") == Some(J.MNumber([0x31]))
    && Field(m, "decision") == Text(Lit(if a.decision.Approved? then "approved" else "denied"))
    && Field(m, "approvalId") == Text(a.approvalId) && Field(m, "decidedByPrincipalId") == Text(a.decidedBy)
    && Field(m, "actionDigest") == Text(a.actionDigest) && Field(m, "reason") == OptionalText(a.reason)
    && Field(m, "expiresAt") == OptionalText(a.expiresAt)
    && Field(m, "childOfLifecycleTicketId") == OptionalText(a.childOf)
  }

  lemma SignatureField(a: Approval, i: nat, name: string)
    requires i < 8 && SignatureKeys()[i] == Lit(name)
    ensures var v := SignatureValues(a)[i];
            Field(J.MeaningOf(SignaturePayload(a)), name) == if Shown(v) then Some(J.MeaningOf(v)) else None
  {
    SignatureKeysDistinct();
    RecordField(SignatureKeys(), SignatureValues(a), i, name);
  }

  lemma SignatureTexts(a: Approval)
    ensures var m := J.MeaningOf(SignaturePayload(a));
            && Field(m, "version") == Some(J.MNumber([0x31]))
            && Field(m, "decision") == Text(Lit(if a.decision.Approved? then "approved" else "denied"))
            && Field(m, "approvalId") == Text(a.approvalId) && Field(m, "decidedByPrincipalId") == Text(a.decidedBy)
  {
    SignatureField(a, 0, "version");
    SignatureField(a, 1, "decision");
    SignatureField(a, 2, "approvalId");
    SignatureField(a, 3, "decidedByPrincipalId");
  }

  lemma SignatureOptionals(a: Approval)
    ensures var m := J.MeaningOf(SignaturePayload(a));
            && Field(m, "actionDigest") == Text(a.actionDigest) && Field(m, "reason") == OptionalText(a.reason)
            && Field(m, "expiresAt") == OptionalText(a.expiresAt)
            && Field(m, "childOfLifecycleTicketId") == OptionalText(a.childOf)
  {
    SignatureField(a, 4, "actionDigest");
    SignatureField(a, 5, "reason");
    SignatureField(a, 6, "expiresAt");
    SignatureField(a, 7, "childOfLifecycleTicketId");
  }

  lemma SignatureNames(a: Approval)
    ensures Only(J.MeaningOf(SignaturePayload(a)), SIGNATURE_NAMES)
  {
    RecordOnly(SignatureKeys(), SignatureValues(a), SIGNATURE_NAMES);
  }

  /** The signed text is a JSON record with exactly these members, each saying what the approval says. */
  lemma SignatureTextSays(a: Approval) returns (j: J.Json)
    ensures JsonReader.Parse(SignatureText(a)) == Some(j) && SignatureSays(CanonicalJsonProofs.JsonMeaning(j), a)
  {
    SignaturePayloadValid(a);
    j := StableTextReads(SignaturePayload(a));
    SignatureNames(a);
    SignatureTexts(a);
    SignatureOptionals(a);
  }
}

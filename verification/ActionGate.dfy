/**
 The canonical mutating-action gate: risk derivation, digest binding, signed approvals and
 single-use tickets. SHA-256, HMAC and `Date.parse` are arbitrary functions of the
 configuration; the clock reading and the ticket id are inputs of each call.
 */
module ActionGate {
  import opened Common
  import opened Utf16
  import CanonicalJson

  type Value = CanonicalJson.Value

  datatype Risk = ReadOnly | Low | Medium | High | Critical

  function Weight(r: Risk): nat {
    match r
    case ReadOnly => 0
    case Low => 1
    case Medium => 2
    case High => 3
    case Critical => 4
  }

  datatype Decision = Allow | Deny | RequiresApproval

  datatype Actor = Actor(kind: Text, id: Text, principalId: Option<Text>, displayName: Option<Text>)

  datatype Resource = Resource(
    kind: Text, id: Option<Text>, displayName: Option<Text>, digest: Option<Text>, attributes: Option<Value>)

  datatype Rollback = Rollback(planned: bool, planDigest: Option<Text>, actions: Option<seq<Text>>)

  datatype Claim = Claim(guardId: Text, decision: Decision, risk: Option<Risk>, reason: Option<Text>)

  datatype ApprovalDecision = Approved | Denied

  /** The only issuer the approval type admits. */
  datatype Issuer = FridayCanonicalGate

  datatype Approval = Approval(
    decision: ApprovalDecision, approvalId: Text, decidedBy: Text, actionDigest: Text, reason: Option<Text>,
    expiresAt: Option<Text>, childOf: Option<Text>, issuer: Option<Issuer>, signature: Option<Text>)

  datatype Request = Request(
    action: Text, actor: Actor, surface: Text, resource: Resource, mutating: bool, risk: Option<Risk>,
    parameters: Option<Value>, planDigest: Option<Text>, rollback: Option<Rollback>,
    idempotencyKey: Option<Text>, claims: seq<Claim>, approval: Option<Approval>)

  datatype Ticket = Ticket(
    ticketId: Text, actionDigest: Text, action: Text, actor: Actor, surface: Text, resource: Resource,
    risk: Risk, approvalId: Text, approvedBy: Text, issuedAt: Text, expiresAt: Option<Text>,
    planDigest: Option<Text>, childOf: Option<Text>, idempotencyKey: Option<Text>)

  /** The gate's own reason code, one for each verdict, or the words of a guard or an approver. */
  datatype Reason = Code(verdict: Verdict) | Stated(text: Text)

  datatype Denier = CanonicalGate | Guard(id: Text)

  datatype Result = Result(
    decision: Decision, reason: Reason, risk: Risk, actionDigest: Text, approvalRequired: bool,
    deniedBy: Option<Denier>, ticket: Option<Ticket>, claims: seq<Claim>)

  predicate IsLowerHex(c: CodeUnit) { IsDigit(c) || 0x61 <= c <= 0x66 }

  predicate IsHexDigest(t: Text) { |t| == 64 && forall i :: 0 <= i < |t| ==> IsLowerHex(t[i]) }

  type HexDigest = t: Text | IsHexDigest(t) witness seq(64, _ => 0x30)

  datatype Config = Config(
    sha256: Text -> HexDigest, hmac: (Text, Text) -> HexDigest, parseTime: Text -> Option<int>,
    secret: Option<Text>, requireSignature: bool)

  // ---------- risk ----------

  function BaseRisk(r: Request): Risk {
    match r.risk
    case Some(k) => k
    case None => if r.mutating then Medium else ReadOnly
  }

  function Raise(risk: Risk, c: Claim): Risk {
    if c.risk.Some? && Weight(c.risk.value) > Weight(risk) then c.risk.value else risk
  }

  function FoldRisk(base: Risk, claims: seq<Claim>): Risk {
    if claims == [] then base else Raise(FoldRisk(base, claims[..|claims| - 1]), claims[|claims| - 1])
  }

  function RiskOf(r: Request): Risk { FoldRisk(BaseRisk(r), r.claims) }

  /** `k` is among the base and the claimed risks, and none of them is above it. */
  ghost predicate IsMaximumRisk(k: Risk, base: Risk, claims: seq<Claim>) {
    && (k == base || exists c :: c in claims && c.risk == Some(k))
    && Weight(base) <= Weight(k)
    && forall c :: c in claims && c.risk.Some? ==> Weight(c.risk.value) <= Weight(k)
  }

  method DeriveRisk(request: Request) returns (risk: Risk)
    ensures risk == RiskOf(request)
    ensures IsMaximumRisk(risk, BaseRisk(request), request.claims)
  {
    risk := BaseRisk(request);
    var claims := request.claims;
    for i := 0 to |claims|
      invariant risk == FoldRisk(BaseRisk(request), claims[..i])
      invariant IsMaximumRisk(risk, BaseRisk(request), claims[..i])
    {
      var claim := claims[i];
      assert claims[..i + 1][..i] == claims[..i] && claims[..i + 1] == claims[..i] + [claim];
      if claim.risk.Some? && Weight(claim.risk.value) > Weight(risk) {
        risk := claim.risk.value;
        assert claim in claims[..i + 1];
      }
    }
    assert claims[..|claims|] == claims;
  }

  // ---------- digest ----------

  function OptText(o: Option<Text>): Value {
    match o
    case None => CanonicalJson.Undefined
    case Some(t) => CanonicalJson.Str(t)
  }

  function OptValue(o: Option<Value>): Value {
    match o
    case None => CanonicalJson.Undefined
    case Some(v) => v
  }

  function TextArray(ts: seq<Text>): seq<Value> {
    seq(|ts|, i requires 0 <= i < |ts| => CanonicalJson.Str(ts[i]))
  }

  /** The record with these keys, in this order. */
  function Record(keys: seq<Text>, values: seq<Value>): (v: Value)
    requires |keys| == |values|
    ensures v.Object? && |v.members| == |keys|
    ensures forall i :: 0 <= i < |keys| ==> v.members[i] == CanonicalJson.Member(keys[i], values[i])
  {
    CanonicalJson.Object(seq(|keys|, i requires 0 <= i < |keys| => CanonicalJson.Member(keys[i], values[i])))
  }

  function RollbackKeys(): (keys: seq<Text>)
    ensures |keys| == 3
  {
    [Lit("planned"), Lit("planDigest"), Lit("actions")]
  }

  function RollbackValues(r: Rollback): (vs: seq<Value>)
    ensures |vs| == 3
  {
    [CanonicalJson.Bool(r.planned), OptText(r.planDigest), OptTexts(r.actions)]
  }

  function OptTexts(o: Option<seq<Text>>): Value {
    match o
    case None => CanonicalJson.Undefined
    case Some(ts) => CanonicalJson.Array(TextArray(ts))
  }

  function RollbackValue(o: Option<Rollback>): Value {
    match o
    case None => CanonicalJson.Undefined
    case Some(r) => Record(RollbackKeys(), RollbackValues(r))
  }

  function RiskText(k: Risk): Text {
    match k
    case ReadOnly => Lit("read_only")
    case Low => Lit("low")
    case Medium => Lit("medium")
    case High => Lit("high")
    case Critical => Lit("critical")
  }

  const ONE: CanonicalJson.NumberText := [0x31]

  function ActorKeys(): (keys: seq<Text>)
    ensures |keys| == 3
  {
    [Lit("kind"), Lit("id"), Lit("principalId")]
  }

  function ActorValues(a: Actor): (vs: seq<Value>)
    ensures |vs| == 3
  {
    [CanonicalJson.Str(a.kind), CanonicalJson.Str(a.id), OptText(a.principalId)]
  }

  function ResourceKeys(): (keys: seq<Text>)
    ensures |keys| == 4
  {
    [Lit("type"), Lit("id"), Lit("digest"), Lit("attributes")]
  }

  function ResourceValues(r: Resource): (vs: seq<Value>)
    ensures |vs| == 4
  {
    [CanonicalJson.Str(r.kind), OptText(r.id), OptText(r.digest), OptValue(r.attributes)]
  }

  function DigestKeys(): (keys: seq<Text>)
    ensures |keys| == 11
  {
    [Lit("version"), Lit("action"), Lit("actor"), Lit("surface"), Lit("resource"), Lit("mutating"), Lit("risk"),
     Lit("parameters"), Lit("planDigest"), Lit("rollback"), Lit("idempotencyKey")]
  }

  function DigestValues(r: Request, k: Risk): (vs: seq<Value>)
    ensures |vs| == 11
  {
    [CanonicalJson.Number(ONE), CanonicalJson.Str(r.action), Record(ActorKeys(), ActorValues(r.actor)),
     CanonicalJson.Str(r.surface), Record(ResourceKeys(), ResourceValues(r.resource)),
     CanonicalJson.Bool(r.mutating), CanonicalJson.Str(RiskText(k)), OptValue(r.parameters),
     OptText(r.planDigest), RollbackValue(r.rollback), OptText(r.idempotencyKey)]
  }

  function DigestPayload(r: Request, k: Risk): Value { Record(DigestKeys(), DigestValues(r, k)) }

  /** The text that is hashed. */
  function DigestText(r: Request, k: Risk): Text { CanonicalJson.StableStringify(DigestPayload(r, k)) }

  function ActionDigest(cfg: Config, r: Request): HexDigest { cfg.sha256(DigestText(r, RiskOf(r))) }

  // ---------- approval signature and use key ----------

  function ApprovalDecisionText(d: ApprovalDecision): Text {
    if d.Approved? then Lit("approved") else Lit("denied")
  }

  function SignatureKeys(): (keys: seq<Text>)
    ensures |keys| == 8
  {
    [Lit("version"), Lit("decision"), Lit("approvalId"), Lit("decidedByPrincipalId"), Lit("actionDigest"),
     Lit("reason"), Lit("expiresAt"), Lit("childOfLifecycleTicketId")]
  }

  function SignatureValues(a: Approval): (vs: seq<Value>)
    ensures |vs| == 8
  {
    [CanonicalJson.Number(ONE), CanonicalJson.Str(ApprovalDecisionText(a.decision)), CanonicalJson.Str(a.approvalId),
     CanonicalJson.Str(a.decidedBy), CanonicalJson.Str(a.actionDigest), OptText(a.reason), OptText(a.expiresAt),
     OptText(a.childOf)]
  }

  function SignaturePayload(a: Approval): Value { Record(SignatureKeys(), SignatureValues(a)) }

  /** The text that is signed. */
  function SignatureText(a: Approval): Text { CanonicalJson.StableStringify(SignaturePayload(a)) }

  function Signature(cfg: Config, a: Approval, secret: Text): HexDigest { cfg.hmac(secret, SignatureText(a)) }

  function Sign(cfg: Config, a: Approval, secret: Text): Approval {
    a.(issuer := Some(FridayCanonicalGate), signature := Some(Signature(cfg, a, secret)))
  }

  predicate IsHexUnit(c: CodeUnit) { IsDigit(c) || 0x41 <= c <= 0x46 || 0x61 <= c <= 0x66 }

  /** 64 hexadecimal digits of either case, lower-cased. */
  function NormalizedSignature(s: Option<Text>): (r: Option<Text>)
    ensures r.Some? ==> IsHexDigest(r.value)
  {
    if s.Some? && |s.value| == 64 && (forall i :: 0 <= i < 64 ==> IsHexUnit(s.value[i]))
    then Some(Lower(s.value)) else None
  }

  predicate VerifySignature(cfg: Config, a: Approval, secret: Text) {
    && a.issuer.Some?
    && NormalizedSignature(a.signature) == Some(Signature(cfg, a, secret))
  }

  function IssuerText(i: Option<Issuer>): Text {
    if i.Some? then Lit("friday_canonical_gate") else []
  }

  function SignaturePart(a: Approval): Text {
    match NormalizedSignature(a.signature)
    case None => []
    case Some(t) => t
  }

  function UseKey(a: Approval): Text {
    a.approvalId + [COLON] + a.actionDigest + [COLON] + IssuerText(a.issuer) + [COLON] + SignaturePart(a)
  }

  // ---------- the decision ----------

  const RESERVED_ACTIONS: set<Text> :=
    {Lit("approve"), Lit("deny"), Lit("system.approve"), Lit("system.deny")}

  predicate IsReserved(r: Request) {
    r.actor.kind == Lit("agent") && Lower(Trim(r.action)) in RESERVED_ACTIONS
  }

  predicate HasClaim(claims: seq<Claim>, d: Decision) { exists i :: 0 <= i < |claims| && claims[i].decision == d }

  predicate RequiresCanonicalApproval(r: Request, risk: Risk) {
    r.mutating || Weight(risk) >= Weight(High) || HasClaim(r.claims, RequiresApproval)
  }

  /** Where the evaluation of a request ends. */
  datatype Verdict =
    | ReservedAction
    | LocallyDenied
    | DigestMismatch
    | SignatureInvalid
    | ApprovalDenied
    | ExpirationRequired
    | ExpirationInvalid
    | Expired
    | AllowedWithoutTicket
    | ApprovalNeeded
    | AlreadyUsed
    | TicketIssued

  predicate SignatureDemanded(cfg: Config) { cfg.requireSignature || cfg.secret.Some? }

  predicate SignatureAccepted(cfg: Config, a: Approval) {
    SignatureDemanded(cfg) ==> cfg.secret.Some? && VerifySignature(cfg, a, cfg.secret.value)
  }

  /** Why an approval that was presented cannot be used, if so. */
  function ApprovalFault(cfg: Config, digest: Text, a: Approval, now: Text): Option<Verdict> {
    if a.actionDigest != digest then Some(DigestMismatch)
    else if a.decision.Denied? then Some(ApprovalDenied)
    else if !SignatureAccepted(cfg, a) then Some(SignatureInvalid)
    else if a.expiresAt.None? then Some(ExpirationRequired)
    else if cfg.parseTime(a.expiresAt.value).None? || cfg.parseTime(now).None? then Some(ExpirationInvalid)
    else if cfg.parseTime(a.expiresAt.value).value <= cfg.parseTime(now).value then Some(Expired)
    else None
  }

  /** The verdict on a request of the given risk and digest. */
  function VerdictOf(cfg: Config, consumed: set<Text>, r: Request, risk: Risk, digest: Text, now: Text): Verdict {
    if IsReserved(r) then ReservedAction
    else if HasClaim(r.claims, Deny) then LocallyDenied
    else
      var fault := if r.approval.None? then None else ApprovalFault(cfg, digest, r.approval.value, now);
      if fault.Some? then fault.value
      else if !RequiresCanonicalApproval(r, risk) then AllowedWithoutTicket
      else if r.approval.None? then ApprovalNeeded
      else if UseKey(r.approval.value) in consumed then AlreadyUsed
      else TicketIssued
  }

  function DecisionOf(v: Verdict): Decision {
    match v
    case AllowedWithoutTicket => Allow
    case TicketIssued => Allow
    case ApprovalNeeded => RequiresApproval
    case _ => Deny
  }

  function Spent(cfg: Config, consumed: set<Text>, r: Request, risk: Risk, digest: Text, now: Text): set<Text> {
    if VerdictOf(cfg, consumed, r, risk, digest, now).TicketIssued? && r.approval.Some?
    then consumed + {UseKey(r.approval.value)} else consumed
  }

  function ConsumedAfter(cfg: Config, consumed: set<Text>, r: Request, now: Text): set<Text> {
    Spent(cfg, consumed, r, RiskOf(r), ActionDigest(cfg, r), now)
  }

  /** The ticket a request would carry away. */
  function TicketFor(r: Request, risk: Risk, digest: Text, a: Approval, now: Text, ticketId: Text): Ticket {
    Ticket(ticketId, digest, r.action, r.actor, r.surface, r.resource, risk, a.approvalId,
           a.decidedBy, now, a.expiresAt, r.planDigest, a.childOf, r.idempotencyKey)
  }

  /** The first claim that denies. */
  function FirstDeny(claims: seq<Claim>): (c: Claim)
    requires HasClaim(claims, Deny)
    ensures c in claims && c.decision == Deny
  {
    if claims[0].decision == Deny then claims[0]
    else
      assert HasClaim(claims[1..], Deny) by {
        var i :| 0 <= i < |claims| && claims[i].decision == Deny;
        assert claims[1..][i - 1] == claims[i];
      }
      FirstDeny(claims[1..])
  }

  function OrCode(o: Option<Text>, v: Verdict): Reason {
    match o
    case None => Code(v)
    case Some(t) => Stated(t)
  }

  /** Reason, denier and reported approval requirement of each verdict. */
  function Report(v: Verdict, r: Request, risk: Risk): (Reason, Option<Denier>, bool)
    requires v.LocallyDenied? ==> HasClaim(r.claims, Deny)
    requires v.ApprovalDenied? ==> r.approval.Some?
  {
    var needed := RequiresCanonicalApproval(r, risk);
    match v
    case ReservedAction => (Code(ReservedAction), Some(CanonicalGate), false)
    case LocallyDenied =>
      var c := FirstDeny(r.claims);
      (OrCode(c.reason, LocallyDenied), Some(Guard(c.guardId)), false)
    case DigestMismatch => (Code(DigestMismatch), Some(CanonicalGate), needed)
    case SignatureInvalid => (Code(SignatureInvalid), Some(CanonicalGate), needed)
    case ApprovalDenied => (OrCode(r.approval.value.reason, ApprovalDenied), Some(CanonicalGate), needed)
    case ExpirationRequired => (Code(ExpirationRequired), Some(CanonicalGate), needed)
    case ExpirationInvalid => (Code(ExpirationInvalid), Some(CanonicalGate), needed)
    case Expired => (Code(Expired), Some(CanonicalGate), needed)
    case AllowedWithoutTicket => (Code(AllowedWithoutTicket), None, false)
    case ApprovalNeeded => (Code(ApprovalNeeded), None, true)
    case AlreadyUsed => (Code(AlreadyUsed), Some(CanonicalGate), true)
    case TicketIssued => (Code(TicketIssued), None, true)
  }

  function Reported(
    cfg: Config, consumed: set<Text>, r: Request, risk: Risk, digest: Text, now: Text, ticketId: Text): Result
  {
    var v := VerdictOf(cfg, consumed, r, risk, digest, now);
    var (reason, denier, required) := Report(v, r, risk);
    Result(DecisionOf(v), reason, risk, digest, required, denier,
           if v.TicketIssued? then Some(TicketFor(r, risk, digest, r.approval.value, now, ticketId)) else None,
           r.claims)
  }

  /** What a caller is told. */
  function ResultOf(cfg: Config, consumed: set<Text>, r: Request, now: Text, ticketId: Text): Result {
    Reported(cfg, consumed, r, RiskOf(r), ActionDigest(cfg, r), now, ticketId)
  }

  class Gate {
    const cfg: Config
    var consumed: set<Text>

    constructor (cfg: Config)
      ensures this.cfg == cfg && consumed == {}
    {
      this.cfg := cfg;
      consumed := {};
    }

    /** Checks a presented approval: digest binding, signature, decision and expiry, in this order. */
    method CheckApproval(digest: Text, approval: Approval, now: Text) returns (fault: Option<Verdict>)
      ensures fault == ApprovalFault(cfg, digest, approval, now)
    {
      if approval.actionDigest != digest {
        return Some(DigestMismatch);
      }
      if approval.decision.Approved? && SignatureDemanded(cfg)
         && (cfg.secret.None? || !VerifySignature(cfg, approval, cfg.secret.value)) {
        return Some(SignatureInvalid);
      }
      if approval.decision.Denied? {
        return Some(ApprovalDenied);
      }
      if approval.expiresAt.None? {
        return Some(ExpirationRequired);
      }
      var expires, evaluated := cfg.parseTime(approval.expiresAt.value), cfg.parseTime(now);
      if expires.None? || evaluated.None? {
        return Some(ExpirationInvalid);
      }
      if expires.value <= evaluated.value {
        return Some(Expired);
      }
      return None;
    }

    /** Evaluates a request; a use key is consumed exactly when a ticket is issued. */
    method Evaluate(request: Request, now: Text, ticketId: Text) returns (result: Result)
      modifies this
      ensures result == ResultOf(cfg, old(consumed), request, now, ticketId)
      ensures consumed == ConsumedAfter(cfg, old(consumed), request, now)
    {
      var risk := DeriveRisk(request);
      var digest := cfg.sha256(DigestText(request, risk));
      result := Decide(request, risk, digest, now, ticketId);
    }

    /** Local guards first, then the presented approval, then what the request needs. */
    method Decide(request: Request, risk: Risk, digest: Text, now: Text, ticketId: Text) returns (result: Result)
      modifies this
      ensures result == Reported(cfg, old(consumed), request, risk, digest, now, ticketId)
      ensures consumed == Spent(cfg, old(consumed), request, risk, digest, now)
    {
      if IsReserved(request) {
        return Denial(risk, digest, false, Code(ReservedAction), request.claims);
      }
      if HasClaim(request.claims, Deny) {
        var localDeny := FirstDeny(request.claims);
        return Result(Deny, OrCode(localDeny.reason, LocallyDenied), risk, digest, false,
                      Some(Guard(localDeny.guardId)), None, request.claims);
      }
      if request.approval.Some? {
        var fault := CheckApproval(digest, request.approval.value, now);
        if fault.Some? {
          result := DenyFault(fault.value, request, risk, digest, now, ticketId);
          return;
        }
      }
      result := Grant(request, risk, digest, now, ticketId);
    }

    /** A faulty approval is denied with its own reason when it denies, and with the fault otherwise. */
    method DenyFault(fault: Verdict, request: Request, risk: Risk, digest: Text, now: Text, ticketId: Text)
      returns (result: Result)
      requires !IsReserved(request) && !HasClaim(request.claims, Deny) && request.approval.Some?
      requires ApprovalFault(cfg, digest, request.approval.value, now) == Some(fault)
      ensures result == Reported(cfg, consumed, request, risk, digest, now, ticketId)
      ensures VerdictOf(cfg, consumed, request, risk, digest, now) == fault
    {
      var reason :=
        if fault.ApprovalDenied? then OrCode(request.approval.value.reason, ApprovalDenied) else Code(fault);
      return Denial(risk, digest, RequiresCanonicalApproval(request, risk), reason, request.claims);
    }

    /** A request that nothing denies: allowed at once, sent for approval, or given a ticket. */
    method Grant(request: Request, risk: Risk, digest: Text, now: Text, ticketId: Text) returns (result: Result)
      requires !IsReserved(request) && !HasClaim(request.claims, Deny)
      requires request.approval.Some? ==> ApprovalFault(cfg, digest, request.approval.value, now).None?
      modifies this
      ensures result == Reported(cfg, old(consumed), request, risk, digest, now, ticketId)
      ensures consumed == Spent(cfg, old(consumed), request, risk, digest, now)
    {
      if !RequiresCanonicalApproval(request, risk) {
        return Result(Allow, Code(AllowedWithoutTicket), risk, digest, false, None, None, request.claims);
      }
      if request.approval.None? {
        return Result(RequiresApproval, Code(ApprovalNeeded), risk, digest, true, None, None, request.claims);
      }
      result := UseApproval(request, request.approval.value, risk, digest, now, ticketId);
    }

    /** Spends the approval's use key on a ticket, unless it is spent already. */
    method UseApproval(request: Request, approval: Approval, risk: Risk, digest: Text, now: Text, ticketId: Text)
      returns (result: Result)
      modifies this
      ensures UseKey(approval) in old(consumed) ==>
                consumed == old(consumed) && result == Denial(risk, digest, true, Code(AlreadyUsed), request.claims)
      ensures UseKey(approval) !in old(consumed) ==>
                && consumed == old(consumed) + {UseKey(approval)}
                && result == Result(
                     Allow, Code(TicketIssued), risk, digest, true, None,
                     Some(TicketFor(request, risk, digest, approval, now, ticketId)), request.claims)
    {
      var useKey := UseKey(approval);
      if useKey in consumed {
        return Denial(risk, digest, true, Code(AlreadyUsed), request.claims);
      }
      var ticket := Ticket(ticketId, digest, request.action, request.actor, request.surface, request.resource, risk,
                           approval.approvalId, approval.decidedBy, now, approval.expiresAt, request.planDigest,
                           approval.childOf, request.idempotencyKey);
      consumed := consumed + {useKey};
      return Result(Allow, Code(TicketIssued), risk, digest, true, None, Some(ticket), request.claims);
    }
  }

  function Denial(risk: Risk, digest: Text, required: bool, reason: Reason, claims: seq<Claim>): Result {
    Result(Deny, reason, risk, digest, required, Some(CanonicalGate), None, claims)
  }
}

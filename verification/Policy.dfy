/**
 The shipped Rego policy, evaluated over the input document the OPA adapter
 builds, with undefined values explicit; and what it means for a call.

 Every rule of the policy is `true` when it is defined, so a rule is a
 predicate: "defined". A conflict between two results of `grant_for` is an
 evaluation error, which fails the whole query.
 */
module Policy {
  import opened Wrappers
  import opened CanonicalJson
  import opened Receipts
  import opened Domain
  import opened Routing

  /** How OPA reads number texts; any guardrail bodies an operator added; and whether,
      some guardrail body being true, OPA stops there before it meets a conflict. */
  datatype Engine = Engine(
    numeric: string -> real,
    added: (Json, Json, Members) -> bool,
    stopsEarly: Json -> bool)

  /* ---- Rego terms ---- */

  datatype Term = Undefined | Defined(value: Json)

  /** `t.key` */
  function Ref(t: Term, key: string): Term {
    match t
    case Defined(Obj(members)) =>
      (match Get(members, key)
       case Some(v) => Defined(v)
       case None => Undefined)
    case _ => Undefined
  }

  /** An expression in a rule body holds when it is defined and not false. */
  predicate Holds(t: Term) {
    t.Defined? && t.value != Bool(false)
  }

  predicate Equals(a: Term, b: Term) {
    a.Defined? && b.Defined? && Denote(a.value) == Denote(b.value)
  }

  predicate Differs(a: Term, b: Term) {
    a.Defined? && b.Defined? && Denote(a.value) != Denote(b.value)
  }

  /** `t > limit` in OPA's order over all values: null, then booleans, numbers,
      strings, arrays, objects. */
  predicate Exceeds(engine: Engine, t: Term, limit: real) {
    match t
    case Undefined => false
    case Defined(Null) => false
    case Defined(Bool(_)) => false
    case Defined(Number(text)) => engine.numeric(text) > limit
    case Defined(_) => true
  }

  function ItemsOf(items: Items): seq<Json> {
    match items
    case NoItems => []
    case Item(head, tail) => [head] + ItemsOf(tail)
  }

  /** What `some x in t` ranges over, for an array. */
  function Elements(t: Term): seq<Json> {
    match t
    case Defined(Arr(items)) => ItemsOf(items)
    case _ => []
  }

  /** `count(t) > 0`, for an array. */
  predicate CountPositive(t: Term) {
    t.Defined? && t.value.Arr? && t.value.items != NoItems
  }

  /* ---- The rules ---- */

  predicate Granted(input: Term, tool: Term) {
    exists i :: 0 <= i < |GrantList(input)| && Matches(GrantList(input)[i], tool)
  }

  function GrantList(input: Term): seq<Json> {
    Elements(Ref(Ref(input, "agent"), "granted_tools"))
  }

  predicate Matches(t: Json, tool: Term) {
    Equals(Ref(Defined(t), "name"), tool)
  }

  /** Two differing grants match: `grant_for(tool)` has two results. */
  predicate Conflicts(input: Term, tool: Term) {
    var list := GrantList(input);
    exists i, j :: 0 <= i < |list| && 0 <= j < |list|
      && Matches(list[i], tool) && Matches(list[j], tool) && Denote(list[i]) != Denote(list[j])
  }

  /** `grant_for(tool)`: the first grant of that name, the only result when there is no
      conflict; undefined when there is none. */
  function GrantFor(input: Term, tool: Term): Term {
    FirstMatch(GrantList(input), tool)
  }

  function FirstMatch(grants: seq<Json>, tool: Term): Term {
    if grants == [] then Undefined
    else if Matches(grants[0], tool) then Defined(grants[0])
    else FirstMatch(grants[1..], tool)
  }

  predicate RequiresDelegation(grant: Term) {
    || Holds(Ref(grant, "approval_required"))
    || CountPositive(Ref(grant, "required_roles"))
  }

  predicate HasAnyRole(required: Term, actual: Term) {
    exists i, j :: 0 <= i < |Elements(required)| && 0 <= j < |Elements(actual)|
      && Denote(Elements(required)[i]) == Denote(Elements(actual)[j])
  }

  predicate ThresholdBody(engine: Engine, tool: Term, args: Term) {
    Equals(tool, Defined(Str("salesforce_update_account"))) && Exceeds(engine, Ref(args, "credit_limit"), 10000.0)
  }

  predicate DelegationBody(input: Term, tool: Term) {
    var grant := GrantFor(input, tool);
    grant.Defined? && RequiresDelegation(grant) && Equals(Ref(input, "subject"), Defined(Null))
  }

  /** `not has_any_role(...)`: its arguments are bound first, so an undefined one fails the body. */
  predicate RoleBody(input: Term, tool: Term) {
    var grant := GrantFor(input, tool);
    var required, actual := Ref(grant, "required_roles"), Ref(Ref(input, "subject"), "roles");
    && grant.Defined?
    && CountPositive(required)
    && Differs(Ref(input, "subject"), Defined(Null))
    && actual.Defined? && !HasAnyRole(required, actual)
  }

  predicate AddedBody(engine: Engine, input: Term, tool: Term, args: Term) {
    input.Defined? && tool.Defined? && args.Defined? && args.value.Obj?
    && engine.added(input.value, tool.value, args.value.members)
  }

  predicate GuardrailViolation(engine: Engine, input: Term, tool: Term, args: Term) {
    && tool.Defined? && args.Defined?
    && (|| ThresholdBody(engine, tool, args)
        || DelegationBody(input, tool)
        || RoleBody(input, tool)
        || AddedBody(engine, input, tool, args))
  }

  predicate AllowRule(engine: Engine, input: Term) {
    var tool, args := Ref(Ref(input, "params"), "name"), Ref(Ref(input, "params"), "arguments");
    || Equals(Ref(input, "method"), Defined(Str("tools/list")))
    || (&& Equals(Ref(input, "method"), Defined(Str("tools/call")))
        && Equals(Ref(Ref(input, "agent"), "status"), Defined(Str("active")))
        && Granted(input, tool)
        && tool.Defined? && args.Defined? && !GuardrailViolation(engine, input, tool, args))
  }

  /** The query fails: the guardrails of a granted call are evaluated, and the
      conflict is met before some body, be it for the first of the conflicting grants,
      ends their evaluation. */
  predicate Fails(engine: Engine, input: Term) {
    var tool, args := Ref(Ref(input, "params"), "name"), Ref(Ref(input, "params"), "arguments");
    && Equals(Ref(input, "method"), Defined(Str("tools/call")))
    && Granted(input, tool)
    && tool.Defined? && args.Defined? && Conflicts(input, tool)
    && !(&& input.Defined? && engine.stopsEarly(input.value)
         && GuardrailViolation(engine, input, tool, args))
  }

  // Two literals: no proof has to look past the first to tell it from another text.
  const NOT_GRANTED := "Capability not granted" + " for this agent identity"
  const EXCEEDED := "Tool arguments exceed authorized thresholds"

  predicate ReasonNotGranted(input: Term) {
    var tool := Ref(Ref(input, "params"), "name");
    Equals(Ref(input, "method"), Defined(Str("tools/call"))) && tool.Defined? && !Granted(input, tool)
  }

  predicate ReasonExceeded(engine: Engine, input: Term) {
    var tool, args := Ref(Ref(input, "params"), "name"), Ref(Ref(input, "params"), "arguments");
    && Equals(Ref(input, "method"), Defined(Str("tools/call")))
    && Granted(input, tool)
    && GuardrailViolation(engine, input, tool, args)
  }

  /* ---- The OPA adapter ---- */

  function Texts(ss: seq<string>): Items {
    if ss == [] then NoItems else Item(Str(ss[0]), Texts(ss[1..]))
  }

  function OptionalText(s: Option<string>): Json {
    match s
    case Some(text) => Str(text)
    case None => Null
  }

  function DumpGrant(g: ToolGrant): Json {
    Obj(Member("name", Str(g.name),
        Member("risk_tier", if g.riskTier.Some? then Str(RiskText(g.riskTier.value)) else Null,
        Member("approval_required", Bool(g.approvalRequired),
        Member("required_roles", Arr(Texts(g.requiredRoles)), NoMembers)))))
  }

  function DumpGrants(gs: seq<ToolGrant>): Items {
    if gs == [] then NoItems else Item(DumpGrant(gs[0]), DumpGrants(gs[1..]))
  }

  function DumpTimes(a: RegisteredAgent): Members {
    Member("created_at", Str(IsoFormat(a.createdAt)),
    Member("updated_at", Str(IsoFormat(a.updatedAt)),
    Member("status_changed_at",
           if a.statusChangedAt.Some? then Str(IsoFormat(a.statusChangedAt.value)) else Null, NoMembers)))
  }

  function DumpStatus(a: RegisteredAgent): Members {
    Member("status", Str(StatusText(a.status)),
    Member("granted_tools", Arr(DumpGrants(a.grantedTools)), DumpTimes(a)))
  }

  function DumpAgent(a: RegisteredAgent): Json {
    Obj(Member("spiffe_id", Str(a.spiffeId),
        Member("display_name", Str(a.displayName),
        Member("purpose", Str(a.purpose),
        Member("owner", Str(a.owner),
        Member("risk_tier", Str(RiskText(a.riskTier)), DumpStatus(a)))))))
  }

  function DumpSubject(s: SubjectIdentity): Json {
    Obj(Member("id", Str(s.subjectId),
        Member("roles", Arr(Texts(s.roles)),
        Member("scopes", Arr(Texts(s.scopes)), NoMembers))))
  }

  function ParamsOf(call: ToolCallRequest): Json {
    Obj(Member("name", OptionalText(call.toolName), Member("arguments", Obj(call.arguments), NoMembers)))
  }

  /** The `input` document. */
  function Project(call: ToolCallRequest): Json {
    Obj(Member("method", Str(call.rpcMethod),
        Member("spiffe_id", Str(call.agent.spiffeId),
        Member("agent", if call.registration.Some? then DumpAgent(call.registration.value) else Null,
        Member("subject", if call.subject.Some? then DumpSubject(call.subject.value) else Null,
        Member("params", ParamsOf(call), NoMembers))))))
  }

  /** `OPAPolicyEngine.evaluate`, OPA being reachable; `None` is
      PolicyEngineUnavailableError, for OPA's answer to a failed query. */
  function Evaluate(engine: Engine, call: ToolCallRequest): Option<PolicyDecision> {
    var input := Defined(Project(call));
    if Fails(engine, input) then None
    else
      var decision := if AllowRule(engine, input) then Decision.Allow else Deny;
      var reason :=
        if ReasonNotGranted(input) then NOT_GRANTED
        else if ReasonExceeded(engine, input) then EXCEEDED
        else if decision == Decision.Allow then "" else "Denied by policy";
      Some(PolicyDecision(decision, reason))
  }

  predicate Allows(engine: Engine, call: ToolCallRequest) {
    var answer := Evaluate(engine, call);
    answer.Some? && answer.value.decision == Decision.Allow
  }

  /* ---- The meaning, on the call itself ---- */

  predicate IsGranted(call: ToolCallRequest) {
    call.registration.Some? && call.toolName.Some?
    && exists i :: 0 <= i < |call.registration.value.grantedTools|
                   && call.registration.value.grantedTools[i].name == call.toolName.value
  }

  /** No two differing grants under the called tool's name. */
  ghost predicate ConflictFree(call: ToolCallRequest) {
    call.registration.Some? ==>
      var gs := call.registration.value.grantedTools;
      forall i, j :: 0 <= i < |gs| && 0 <= j < |gs| && Some(gs[i].name) == call.toolName && gs[i].name == gs[j].name
        ==> gs[i] == gs[j]
  }

  predicate Breaches(engine: Engine, call: ToolCallRequest) {
    && call.toolName == Some("salesforce_update_account")
    && var limit := Get(call.arguments, "credit_limit");
    && limit.Some? && Exceeds(engine, Defined(limit.value), 10000.0)
  }

  /** A grant's terms are met by the acting human, if any. */
  predicate TermsMet(g: ToolGrant, subject: Option<SubjectIdentity>) {
    && (g.approvalRequired || g.requiredRoles != [] ==> subject.Some?)
    && (g.requiredRoles != [] && subject.Some? ==>
          exists r :: r in g.requiredRoles && r in subject.value.roles)
  }

  predicate Added(engine: Engine, call: ToolCallRequest) {
    engine.added(Project(call), OptionalText(call.toolName), call.arguments)
  }

  predicate Violates(engine: Engine, call: ToolCallRequest) {
    || Breaches(engine, call)
    || Added(engine, call)
    || (call.registration.Some? && call.toolName.Some?
        && exists i :: 0 <= i < |call.registration.value.grantedTools|
             && call.registration.value.grantedTools[i].name == call.toolName.value
             && !TermsMet(call.registration.value.grantedTools[i], call.subject))
  }

  predicate Permits(engine: Engine, call: ToolCallRequest) {
    || call.rpcMethod == "tools/list"
    || (&& call.rpcMethod == "tools/call"
        && call.registration.Some? && call.registration.value.status.Active?
        && IsGranted(call)
        && !Violates(engine, call))
  }
}

/** The gateway's domain values. */
module Domain {
  import opened Wrappers
  import opened CanonicalJson
  import opened Receipts

  datatype AgentIdentity = AgentIdentity(spiffeId: string, humanSponsor: Option<string>, clientId: Option<string>)

  /** The human a delegated call runs under, from their verified token. */
  datatype SubjectIdentity = SubjectIdentity(
    subjectId: string, roles: seq<string>, scopes: seq<string>, authorizedActor: Option<string>)

  datatype AgentStatus = Active | Suspended

  datatype RiskTier = Low | Medium | High

  datatype ToolGrant = ToolGrant(
    name: string, riskTier: Option<RiskTier>, approvalRequired: bool, requiredRoles: seq<string>)

  datatype RegisteredAgent = RegisteredAgent(
    spiffeId: string,
    displayName: string,
    purpose: string,
    owner: string,
    riskTier: RiskTier,
    status: AgentStatus,
    grantedTools: seq<ToolGrant>,
    createdAt: Timestamp,
    updatedAt: Timestamp,
    statusChangedAt: Option<Timestamp>)

  datatype ToolCallRequest = ToolCallRequest(
    rpcMethod: string,
    toolName: Option<string>,
    arguments: Members,
    agent: AgentIdentity,
    registration: Option<RegisteredAgent>,
    subject: Option<SubjectIdentity>)

  datatype PolicyDecision = PolicyDecision(decision: Decision, reason: string)

  function StatusText(s: AgentStatus): string {
    match s
    case Active => "active"
    case Suspended => "suspended"
  }

  function RiskText(r: RiskTier): string {
    match r
    case Low => "low"
    case Medium => "medium"
    case High => "high"
  }
}

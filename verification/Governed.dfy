/**
 `GovernedExecutionService`: the sequence identify, look up, verify subject,
 decide, receipt, export, broker, forward. Each port's answer to a call is an
 input; what the service does to the outside is the log of its effects.
 */
module Governed {
  import opened Wrappers
  import opened CanonicalJson
  import opened Receipts
  import opened Domain
  import opened Routing

  datatype Mode = Enforce | Observe
  datatype Binding = Strict | MayActOnly | Off

  datatype Config = Config(mode: Mode, verifiesSubjects: bool, binding: Binding)

  datatype PolicyAnswer = Decides(decision: PolicyDecision) | Unavailable | PolicyCrash
  datatype UpstreamAnswer = Responds(response: Members) | UpstreamError | UpstreamCrash

  /** One incoming call, and what every port answers to it. `None` is the port's
      error: IdentityError, a failed lookup, TokenExchangeError. */
  datatype Input = Input(
    headers: map<string, string>,                  // names lower-cased
    rpcMethod: string,
    toolName: Option<string>,
    arguments: Members,
    identity: Option<AgentIdentity>,
    lookup: Option<Option<RegisteredAgent>>,
    verified: Option<SubjectIdentity>,
    policy: PolicyAnswer,
    recorded: bool,                                // ledger.record succeeds
    exported: bool,                                // audit_exporter.export succeeds
    exchanged: Option<string>,
    upstream: UpstreamAnswer)

  datatype Effect =
    | Receipted(call: ToolCallRequest, decision: PolicyDecision, enforced: bool)
    | Exported
    | Exchanged(subjectToken: string)
    | Sent(sent: ToolCallRequest, credential: string)

  datatype Failure = IdentityRefused | MissingSubjectToken | Crash

  datatype Authorization =
    | Refused(failure: Failure)
    | Outcome(allowed: bool, decision: PolicyDecision, shadowed: bool, call: ToolCallRequest)

  datatype Reply =
    | Raised(failure: Failure)
    | PolicyViolation(reason: string)
    | BrokeringFailed
    | UpstreamFailed
    | Response(response: Members)

  // Two literals each: no proof has to look past the first of them to tell two texts apart.
  const NOT_REGISTERED := "Agent not registered in the Agent Registry" + " (orphaned agents are refused)"
  const FAIL_CLOSED := "Policy engine unavailable;" + " denied (fail-closed)"
  const SUBJECT_TOKEN_HEADER := "x-subject-token"

  function Header(headers: map<string, string>, name: string): string {
    if name in headers then headers[name] else ""
  }

  /** Python's truth of an optional string. */
  predicate Truthy(s: Option<string>) {
    s.Some? && s.value != ""
  }

  /** `_bind_subject` accepts. */
  predicate Binds(agent: AgentIdentity, subject: SubjectIdentity, mode: Binding) {
    if mode.Off? then true
    else if subject.authorizedActor.Some? then
      !(Truthy(agent.clientId) && subject.authorizedActor.value != agent.clientId.value)
    else if mode.MayActOnly? then true
    else !(Truthy(agent.humanSponsor) && subject.subjectId != agent.humanSponsor.value)
  }

  /** The verified subject of a call: `None` is IdentityError. */
  function SubjectFor(cfg: Config, inp: Input, agent: AgentIdentity): Option<Option<SubjectIdentity>> {
    if !cfg.verifiesSubjects || Header(inp.headers, SUBJECT_TOKEN_HEADER) == "" then Some(None)
    else
      match inp.verified
      case None => None
      case Some(subject) => if Binds(agent, subject, cfg.binding) then Some(Some(subject)) else None
  }

  datatype Judgement = Judged(decision: PolicyDecision, shadowable: bool) | NoJudgement

  /** The registry gate, then the policy engine, failing closed. */
  function Judge(inp: Input, registration: Option<RegisteredAgent>): Judgement {
    match registration
    case None => Judged(PolicyDecision(Deny, NOT_REGISTERED), false)
    case Some(record) =>
      if record.status != Active then
        Judged(PolicyDecision(Deny, "Agent is " + StatusText(record.status) + " in the Agent Registry"), false)
      else
        match inp.policy
        case Decides(decision) => Judged(decision, true)
        case Unavailable => Judged(PolicyDecision(Deny, FAIL_CLOSED), false)
        case PolicyCrash => NoJudgement
  }

  datatype Traced<T> = Traced(effects: seq<Effect>, result: T)

  function Authorize(cfg: Config, inp: Input): Traced<Authorization> {
    match inp.identity
    case None => Traced([], Refused(IdentityRefused))
    case Some(agent) =>
      match inp.lookup
      case None => Traced([], Refused(Crash))
      case Some(registration) =>
        match SubjectFor(cfg, inp, agent)
        case None => Traced([], Refused(IdentityRefused))
        case Some(subject) =>
          var call := ToolCallRequest(inp.rpcMethod, inp.toolName, inp.arguments, agent, registration, subject);
          match Judge(inp, registration)
          case NoJudgement => Traced([], Refused(Crash))
          case Judged(decision, shadowable) =>
            var shadow := shadowable && cfg.mode.Observe? && decision.decision != Allow;
            if !inp.recorded then Traced([], Refused(Crash))
            else
              var receipt := Receipted(call, decision, !shadow);
              if !inp.exported then Traced([receipt], Refused(Crash))
              else Traced([receipt, Exported], Outcome(decision.decision == Allow || shadow, decision, shadow, call))
  }

  /* ---- Brokering ---- */

  /** `text.partition(" ")`, without the separator. */
  function Partition(text: string): (string, string) {
    if text == "" then ("", "")
    else if text[0] == ' ' then ("", text[1..])
    else
      var (before, after) := Partition(text[1..]);
      ([text[0]] + before, after)
  }

  function Lower(s: string): string {
    seq(|s|, i requires 0 <= i < |s| => if 'A' <= s[i] <= 'Z' then (s[i] as int + 32) as char else s[i])
  }

  datatype Credential = Placeholder(text: string) | ToExchange(token: string) | TokenMissing

  /** Which token `_broker_credential` exchanges. */
  function CredentialFor(inp: Input, agent: AgentIdentity): Credential {
    if Truthy(agent.humanSponsor) then
      var token := Header(inp.headers, SUBJECT_TOKEN_HEADER);
      if token == "" then TokenMissing else ToExchange(token)
    else
      var (scheme, token) := Partition(Header(inp.headers, "authorization"));
      if Lower(scheme) != "bearer" || token == "" then Placeholder("autonomous::" + agent.spiffeId)
      else ToExchange(token)
  }

  /* ---- The projection of a listing ---- */

  function GrantedNames(call: ToolCallRequest): set<string> {
    if call.registration.None? then {} else set g | g in call.registration.value.grantedTools :: g.name
  }

  /** `tool.get("name") in granted` for a dictionary `tool`. */
  predicate NamesGranted(tool: Members, granted: set<string>) {
    ToolName(tool).Some? && ToolName(tool).value in granted
  }

  /** A list or a dictionary cannot be looked up in a set: TypeError. */
  predicate Unhashable(tool: Members) {
    var name := Get(tool, "name");
    name.Some? && (name.value.Arr? || name.value.Obj?)
  }

  predicate SomeUnhashable(items: Items) {
    match items
    case NoItems => false
    case Item(Obj(tool), tail) => Unhashable(tool) || SomeUnhashable(tail)
    case Item(_, tail) => SomeUnhashable(tail)
  }

  function FilterTools(items: Items, granted: set<string>): Items {
    match items
    case NoItems => NoItems
    case Item(Obj(tool), tail) =>
      if NamesGranted(tool, granted) then Item(Obj(tool), FilterTools(tail, granted)) else FilterTools(tail, granted)
    case Item(_, tail) => FilterTools(tail, granted)
  }

  /** `{**ms, key: value}` for a key that is there: its place is kept. */
  function Replace(ms: Members, key: string, value: Json): Members {
    match ms
    case NoMembers => NoMembers
    case Member(k, v, rest) => if k == key then Member(k, value, rest) else Member(k, v, Replace(rest, key, value))
  }

  /** `_filter_listing`; `None` is TypeError. */
  function FilterListing(response: Members, call: ToolCallRequest): Option<Members> {
    if call.rpcMethod != "tools/list" then Some(response)
    else
      match Get(response, "result")
      case Some(Obj(result)) =>
        (match Get(result, "tools")
         case Some(Arr(items)) =>
           if SomeUnhashable(items) then None
           else
             var kept := FilterTools(items, GrantedNames(call));
             Some(Replace(response, "result", Obj(Replace(result, "tools", Arr(kept)))))
         case _ => Some(response))
      case _ => Some(response)
  }

  function Forward(inp: Input, call: ToolCallRequest, credential: string): Traced<Reply> {
    Traced([Sent(call, credential)],
      match inp.upstream
      case UpstreamError => UpstreamFailed
      case UpstreamCrash => Raised(Crash)
      case Responds(response) =>
        (match FilterListing(response, call)
         case Some(filtered) => Response(filtered)
         case None => Raised(Crash)))
  }

  function Execute(cfg: Config, inp: Input): Traced<Reply> {
    var authorized := Authorize(cfg, inp);
    match authorized.result
    case Refused(failure) => Traced(authorized.effects, Raised(failure))
    case Outcome(allowed, decision, _, call) =>
      if !allowed then Traced(authorized.effects, PolicyViolation(decision.reason))
      else
        match CredentialFor(inp, call.agent)
        case TokenMissing => Traced(authorized.effects, Raised(MissingSubjectToken))
        case Placeholder(text) =>
          var sent := Forward(inp, call, text);
          Traced(authorized.effects + sent.effects, sent.result)
        case ToExchange(token) =>
          match inp.exchanged
          case None => Traced(authorized.effects + [Exchanged(token)], BrokeringFailed)
          case Some(credential) =>
            var sent := Forward(inp, call, credential);
            Traced(authorized.effects + [Exchanged(token)] + sent.effects, sent.result)
  }

  /* ---- The service ---- */

  /** An effect of one call, in the shared log. */
  datatype Logged = Logged(id: nat, effect: Effect)

  function Tag(id: nat, effects: seq<Effect>): seq<Logged> {
    seq(|effects|, i requires 0 <= i < |effects| => Logged(id, effects[i]))
  }

  lemma TagThen(id: nat, effects: seq<Effect>, e: Effect)
    ensures Tag(id, effects + [e]) == Tag(id, effects) + [Logged(id, e)]
  {
  }

  class GovernedExecutionService {
    const cfg: Config
    var log: seq<Logged>

    constructor (cfg: Config)
      ensures this.cfg == cfg && log == []
    {
      this.cfg, log := cfg, [];
    }

    method Perform(id: nat, e: Effect)
      modifies this
      ensures log == old(log) + [Logged(id, e)]
    {
      log := log + [Logged(id, e)];
    }

    /** `_authorize` */
    method AuthorizeCall(id: nat, inp: Input) returns (result: Authorization)
      modifies this
      ensures log == old(log) + Tag(id, Authorize(cfg, inp).effects)
      ensures result == Authorize(cfg, inp).result
    {
      hide Binds, StatusText, Header;
      if inp.identity.None? {
        return Refused(IdentityRefused);
      }
      var agent := inp.identity.value;
      if inp.lookup.None? {
        return Refused(Crash);
      }
      var registration := inp.lookup.value;
      var call := ToolCallRequest(inp.rpcMethod, inp.toolName, inp.arguments, agent, registration, None);
      var subjectToken := Header(inp.headers, SUBJECT_TOKEN_HEADER);
      if cfg.verifiesSubjects && subjectToken != "" {
        if inp.verified.None? || !Binds(agent, inp.verified.value, cfg.binding) {
          return Refused(IdentityRefused);
        }
        call := call.(subject := inp.verified);
      }
      var decision: PolicyDecision, shadowable := PolicyDecision(Deny, NOT_REGISTERED), true;
      if registration.None? {
        shadowable := false;
      } else if registration.value.status != Active {
        decision := PolicyDecision(
          Deny, "Agent is " + StatusText(registration.value.status) + " in the Agent Registry");
        shadowable := false;
      } else {
        match inp.policy
        case Decides(d) => decision := d;
        case Unavailable =>
          decision := PolicyDecision(Deny, FAIL_CLOSED);
          shadowable := false;
        case PolicyCrash => return Refused(Crash);
      }
      var shadow := shadowable && cfg.mode.Observe? && decision.decision != Allow;
      if !inp.recorded {
        return Refused(Crash);
      }
      Perform(id, Receipted(call, decision, !shadow));
      if !inp.exported {
        return Refused(Crash);
      }
      Perform(id, Exported);
      return Outcome(decision.decision == Allow || shadow, decision, shadow, call);
    }

    /** `execute` */
    method ExecuteCall(id: nat, inp: Input) returns (reply: Reply)
      modifies this
      ensures log == old(log) + Tag(id, Execute(cfg, inp).effects)
      ensures reply == Execute(cfg, inp).result
    {
      hide Authorize, FilterListing, Lower, Partition;
      ghost var before := log;
      ghost var effects := Authorize(cfg, inp).effects;
      var outcome := AuthorizeCall(id, inp);
      if outcome.Refused? {
        return Raised(outcome.failure);
      }
      if !outcome.allowed {
        return PolicyViolation(outcome.decision.reason);
      }
      var credential: string;
      match CredentialFor(inp, outcome.call.agent) {
        case TokenMissing => return Raised(MissingSubjectToken);
        case Placeholder(text) => credential := text;
        case ToExchange(token) =>
          TagThen(id, effects, Exchanged(token));
          effects := effects + [Exchanged(token)];
          Perform(id, Exchanged(token));
          if inp.exchanged.None? {
            return BrokeringFailed;
          }
          credential := inp.exchanged.value;
      }
      TagThen(id, effects, Sent(outcome.call, credential));
      Perform(id, Sent(outcome.call, credential));
      match inp.upstream {
        case UpstreamError => return UpstreamFailed;
        case UpstreamCrash => return Raised(Crash);
        case Responds(response) =>
          var filtered := FilterListing(response, outcome.call);
          if filtered.None? {
            return Raised(Crash);
          }
          return Response(filtered.value);
      }
    }
  }
}

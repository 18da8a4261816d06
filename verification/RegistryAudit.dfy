/**
 The Postgres registry's mutations, each paired in one transaction with its row in
 the operator audit trail; calls run one after another. Each reads the clock for the
 agent row (`now`) and again for the audit row (`auditedAt`).
 */
module RegistryAudit {
  import opened Wrappers
  import opened Receipts
  import opened Domain

  datatype AgentPatch = AgentPatch(
    displayName: Option<string>,
    purpose: Option<string>,
    owner: Option<string>,
    riskTier: Option<RiskTier>,
    grantedTools: Option<seq<ToolGrant>>)

  datatype Detail =
    | Created(owner: string, riskTier: RiskTier)
    | Updated(patch: AgentPatch)
    | StatusSet(was: AgentStatus, to: AgentStatus)

  datatype OperatorAction = OperatorAction(operator: string, target: string, detail: Detail, timestamp: Timestamp)

  datatype Request =
    | Create(agent: RegisteredAgent, operator: string, auditedAt: Timestamp)
    | Update(id: string, patch: AgentPatch, operator: string, now: Timestamp, auditedAt: Timestamp)
    | SetStatus(id: string, status: AgentStatus, operator: string, now: Timestamp, auditedAt: Timestamp)

  /** `DuplicateKey` is the primary key refusing the insert: the transaction rolls back. */
  datatype Outcome = Done(agent: RegisteredAgent) | DuplicateKey | AgentNotFound

  datatype Tables = Tables(agents: map<string, RegisteredAgent>, actions: seq<OperatorAction>)

  const EMPTY := Tables(map[], [])

  function Target(r: Request): string {
    match r
    case Create(agent, _, _) => agent.spiffeId
    case Update(id, _, _, _, _) => id
    case SetStatus(id, _, _, _, _) => id
  }

  function Or<T>(field: Option<T>, kept: T): T {
    match field
    case Some(value) => value
    case None => kept
  }

  function Patched(row: RegisteredAgent, patch: AgentPatch, now: Timestamp): RegisteredAgent {
    row.(displayName := Or(patch.displayName, row.displayName),
         purpose := Or(patch.purpose, row.purpose),
         owner := Or(patch.owner, row.owner),
         riskTier := Or(patch.riskTier, row.riskTier),
         grantedTools := Or(patch.grantedTools, row.grantedTools),
         updatedAt := now)
  }

  /** The outcome of a request, and the audit detail of a successful one. */
  function Decide(agents: map<string, RegisteredAgent>, r: Request): (Outcome, Option<Detail>) {
    match r
    case Create(agent, _, _) =>
      if agent.spiffeId in agents then (DuplicateKey, None)
      else (Done(agent), Some(Created(agent.owner, agent.riskTier)))
    case Update(id, patch, _, now, _) =>
      if id !in agents then (AgentNotFound, None)
      else (Done(Patched(agents[id], patch, now)), Some(Updated(patch)))
    case SetStatus(id, status, _, now, _) =>
      if id !in agents then (AgentNotFound, None)
      else (Done(agents[id].(status := status, statusChangedAt := Some(now), updatedAt := now)),
            Some(StatusSet(agents[id].status, status)))
  }

  /** The transaction: both writes, or neither. */
  function Apply(t: Tables, r: Request): Tables {
    match Decide(t.agents, r)
    case (Done(agent), Some(detail)) =>
      Tables(t.agents[Target(r) := agent], t.actions + [OperatorAction(r.operator, Target(r), detail, r.auditedAt)])
    case _ => t
  }

  function Run(rs: seq<Request>): Tables
    decreases |rs|
  {
    if rs == [] then EMPTY else Apply(Run(rs[..|rs| - 1]), rs[|rs| - 1])
  }

  /* ---- One action per success ---- */

  /** The requests of a run that succeeded, in order. */
  function Successes(rs: seq<Request>): seq<Request>
    decreases |rs|
  {
    if rs == [] then []
    else
      var front, last := rs[..|rs| - 1], rs[|rs| - 1];
      Successes(front) + if Decide(Run(front).agents, last).0.Done? then [last] else []
  }

  /** The action records who asked for what, on which agent, and when. */
  ghost predicate Records(a: OperatorAction, r: Request) {
    && a.operator == r.operator && a.target == Target(r) && a.timestamp == r.auditedAt
    && match r
       case Create(agent, _, _) => a.detail == Created(agent.owner, agent.riskTier)
       case Update(_, patch, _, _, _) => a.detail == Updated(patch)
       case SetStatus(_, status, _, _, _) => a.detail.StatusSet? && a.detail.to == status
  }

  lemma {:induction false} OneActionPerSuccess(rs: seq<Request>)
    ensures |Run(rs).actions| == |Successes(rs)|
    ensures forall i :: 0 <= i < |Successes(rs)| ==> Records(Run(rs).actions[i], Successes(rs)[i])
    decreases |rs|
  {
    if rs != [] {
      OneActionPerSuccess(rs[..|rs| - 1]);
    }
  }

  /** A request succeeds exactly when it creates a new agent or touches an existing
      one, and agents are never removed; a failed request changes nothing. */
  lemma SuccessIff(t: Tables, r: Request)
    ensures var u := Apply(t, r);
      && (Decide(t.agents, r).0.Done? <==> (Target(r) in t.agents <==> !r.Create?))
      && (!Decide(t.agents, r).0.Done? ==> u == t)
      && (Decide(t.agents, r).0.Done? ==> u.agents.Keys == t.agents.Keys + {Target(r)} && t.actions < u.actions)
      && (forall id :: id in t.agents && id != Target(r) ==> id in u.agents && u.agents[id] == t.agents[id])
      && (Decide(t.agents, r).0.Done? ==> Decide(t.agents, r).0 == Done(u.agents[Target(r)]))
      && (!Decide(t.agents, r).0.Done? ==> Decide(t.agents, r).0 == if r.Create? then DuplicateKey else AgentNotFound)
  {
  }

  /* ---- Creation and status history ---- */

  /** The first request that creates the agent. */
  function Founder(rs: seq<Request>, id: string): Option<RegisteredAgent>
    decreases |rs|
  {
    if rs == [] then None
    else
      match Founder(rs[..|rs| - 1], id)
      case Some(agent) => Some(agent)
      case None =>
        var last := rs[|rs| - 1];
        if last.Create? && last.agent.spiffeId == id then Some(last.agent) else None
  }

  lemma {:induction false} RegisteredIffFounded(rs: seq<Request>, id: string)
    ensures id in Run(rs).agents <==> Founder(rs, id).Some?
    ensures id in Run(rs).agents ==>
      var (agent, founder) := (Run(rs).agents[id], Founder(rs, id).value);
      agent.spiffeId == id && agent.createdAt == founder.createdAt
    decreases |rs|
  {
    if rs != [] {
      RegisteredIffFounded(rs[..|rs| - 1], id);
    }
  }

  /** The from/to pairs of the agent's `set_status` rows, in order. */
  function Transitions(actions: seq<OperatorAction>, id: string): seq<(AgentStatus, AgentStatus)>
    decreases |actions|
  {
    if actions == [] then []
    else
      var last := actions[|actions| - 1];
      Transitions(actions[..|actions| - 1], id)
        + if last.target == id && last.detail.StatusSet? then [(last.detail.was, last.detail.to)] else []
  }

  /** The status after the first `n` transitions. */
  function StatusAt(start: AgentStatus, ts: seq<(AgentStatus, AgentStatus)>, n: nat): AgentStatus
    requires n <= |ts|
  {
    if n == 0 then start else ts[n - 1].1
  }

  /** Each pair starts where the one before ended, from `start` to `end`. */
  ghost predicate Linked(start: AgentStatus, ts: seq<(AgentStatus, AgentStatus)>, end: AgentStatus) {
    && (forall i :: 0 <= i < |ts| ==> ts[i].0 == StatusAt(start, ts, i))
    && end == StatusAt(start, ts, |ts|)
  }

  lemma LinkedExtends(start: AgentStatus, ts: seq<(AgentStatus, AgentStatus)>, mid: AgentStatus, end: AgentStatus)
    requires Linked(start, ts, mid)
    ensures Linked(start, ts + [(mid, end)], end)
  {
    var us := ts + [(mid, end)];
    forall i | 0 <= i < |us| ensures us[i].0 == StatusAt(start, us, i) {
      assert StatusAt(start, us, i) == StatusAt(start, ts, i);
    }
  }

  lemma StatusAfter(t: Tables, r: Request, id: string)
    requires id in Apply(t, r).agents
    ensures id in t.agents ==>
      Apply(t, r).agents[id].status == if r.SetStatus? && r.id == id then r.status else t.agents[id].status
    ensures id !in t.agents ==> r.Create? && r.agent.spiffeId == id && Apply(t, r).agents[id] == r.agent
  {
  }

  lemma FounderStays(rs: seq<Request>, id: string)
    requires rs != []
    ensures Founder(rs[..|rs| - 1], id).Some? ==> Founder(rs, id) == Founder(rs[..|rs| - 1], id)
    ensures Founder(rs[..|rs| - 1], id).None? && rs[|rs| - 1].Create? && rs[|rs| - 1].agent.spiffeId == id
            ==> Founder(rs, id) == Some(rs[|rs| - 1].agent)
  {
  }

  /** An agent's audited transitions link from the status it was created with to the
      status it has. */
  lemma {:induction false} StatusHistoryLinks(rs: seq<Request>, id: string)
    requires id in Run(rs).agents
    ensures Founder(rs, id).Some?
    ensures Linked(Founder(rs, id).value.status, Transitions(Run(rs).actions, id), Run(rs).agents[id].status)
    decreases |rs|
  {
    hide Apply, Transitions, Linked, Founder;
    var front, last := rs[..|rs| - 1], rs[|rs| - 1];
    var t := Run(front);
    RegisteredIffFounded(front, id);
    FounderStays(rs, id);
    TransitionsAfter(t, last, id);
    StatusAfter(t, last, id);
    if id in t.agents {
      StatusHistoryLinks(front, id);
      assert Transitions(t.actions, id) + [] == Transitions(t.actions, id);
      if last.SetStatus? && last.id == id {
        LinkedExtends(Founder(front, id).value.status, Transitions(t.actions, id), t.agents[id].status, last.status);
      }
    } else {
      NoTransitionsBefore(front, id);
      LinkedTrivially(last.agent.status);
    }
  }

  lemma LinkedTrivially(status: AgentStatus)
    ensures Linked(status, [], status)
  {
  }

  lemma TransitionsAfter(t: Tables, r: Request, id: string)
    ensures Transitions(Apply(t, r).actions, id) == Transitions(t.actions, id)
      + if r.SetStatus? && r.id == id && id in t.agents then [(t.agents[id].status, r.status)] else []
  {
    var u := Apply(t, r);
    if u.actions != t.actions {
      assert u.actions[..|t.actions|] == t.actions;
    }
  }

  lemma {:induction false} NoTransitionsBefore(rs: seq<Request>, id: string)
    requires id !in Run(rs).agents
    ensures Transitions(Run(rs).actions, id) == []
    decreases |rs|
  {
    if rs != [] {
      var front := rs[..|rs| - 1];
      assert id !in Run(front).agents;
      NoTransitionsBefore(front, id);
      TransitionsAfter(Run(front), rs[|rs| - 1], id);
    }
  }

  /** When the status was last set since the agent exists; `update` never counts. */
  function LastStatusChange(rs: seq<Request>, id: string): Option<Timestamp>
    decreases |rs|
  {
    if rs == [] then None
    else
      var front, last := rs[..|rs| - 1], rs[|rs| - 1];
      if Founder(front, id).None? then
        match Founder(rs, id)
        case None => None
        case Some(agent) => agent.statusChangedAt
      else if last.SetStatus? && last.id == id then Some(last.now)
      else LastStatusChange(front, id)
  }

  lemma {:induction false} StatusChangedAtIsExact(rs: seq<Request>, id: string)
    requires id in Run(rs).agents
    ensures Run(rs).agents[id].statusChangedAt == LastStatusChange(rs, id)
    decreases |rs|
  {
    var front := rs[..|rs| - 1];
    RegisteredIffFounded(front, id);
    RegisteredIffFounded(rs, id);
    if id in Run(front).agents {
      StatusChangedAtIsExact(front, id);
    }
  }

  /** `create` stores the agent as given. */
  lemma CreateStoresTheAgent(t: Tables, r: Request)
    requires r.Create? && r.agent.spiffeId !in t.agents
    ensures Apply(t, r).agents == t.agents[r.agent.spiffeId := r.agent]
  {
  }

  /** `set_status` sets the status and both times, and keeps every other field. */
  lemma SetStatusKeepsTheRest(t: Tables, r: Request)
    requires r.SetStatus? && r.id in t.agents
    ensures var (before, after) := (t.agents[r.id], Apply(t, r).agents[r.id]);
      && after.status == r.status && after.statusChangedAt == Some(r.now) && after.updatedAt == r.now
      && after.spiffeId == before.spiffeId && after.displayName == before.displayName && after.purpose == before.purpose
      && after.owner == before.owner && after.riskTier == before.riskTier && after.grantedTools == before.grantedTools
      && after.createdAt == before.createdAt
  {
  }

  /** `update` sets the fields the patch carries and keeps every other one. */
  lemma UpdateKeepsTheRest(t: Tables, r: Request)
    requires r.Update? && r.id in t.agents
    ensures var (before, after, p) := (t.agents[r.id], Apply(t, r).agents[r.id], r.patch);
      && after.status == before.status && after.statusChangedAt == before.statusChangedAt
      && after.spiffeId == before.spiffeId && after.createdAt == before.createdAt && after.updatedAt == r.now
      && (if p.displayName.None? then after.displayName == before.displayName
          else Some(after.displayName) == p.displayName)
      && (if p.purpose.None? then after.purpose == before.purpose else Some(after.purpose) == p.purpose)
      && (if p.owner.None? then after.owner == before.owner else Some(after.owner) == p.owner)
      && (if p.riskTier.None? then after.riskTier == before.riskTier else Some(after.riskTier) == p.riskTier)
      && (if p.grantedTools.None? then after.grantedTools == before.grantedTools
          else Some(after.grantedTools) == p.grantedTools)
  {
  }

  /* ---- Reading the table back from the trail ---- */

  /** What the audit trail tells about an agent. */
  datatype Known = Known(
    owner: string, riskTier: RiskTier,
    displayName: Option<string>, purpose: Option<string>,
    grantedTools: Option<seq<ToolGrant>>, status: Option<AgentStatus>)

  function Newer<T>(field: Option<T>, known: Option<T>): Option<T> {
    if field.Some? then field else known
  }

  function Learn(known: Option<Known>, d: Detail): Option<Known> {
    match (d, known)
    case (Created(owner, riskTier), _) => Some(Known(owner, riskTier, None, None, None, None))
    case (_, None) => None
    case (Updated(p), Some(k)) =>
      Some(Known(Or(p.owner, k.owner), Or(p.riskTier, k.riskTier), Newer(p.displayName, k.displayName),
                 Newer(p.purpose, k.purpose), Newer(p.grantedTools, k.grantedTools), k.status))
    case (StatusSet(_, to), Some(k)) => Some(k.(status := Some(to)))
  }

  function Replay(actions: seq<OperatorAction>, id: string): Option<Known>
    decreases |actions|
  {
    if actions == [] then None
    else
      var known, last := Replay(actions[..|actions| - 1], id), actions[|actions| - 1];
      if last.target == id then Learn(known, last.detail) else known
  }

  ghost predicate Agrees(k: Known, agent: RegisteredAgent) {
    && k.owner == agent.owner
    && k.riskTier == agent.riskTier
    && (k.displayName.Some? ==> k.displayName.value == agent.displayName)
    && (k.purpose.Some? ==> k.purpose.value == agent.purpose)
    && (k.grantedTools.Some? ==> k.grantedTools.value == agent.grantedTools)
    && (k.status.Some? ==> k.status.value == agent.status)
  }

  ghost predicate TrailAgrees(t: Tables, id: string) {
    && (id in t.agents <==> Replay(t.actions, id).Some?)
    && (id in t.agents ==> Agrees(Replay(t.actions, id).value, t.agents[id]))
  }

  lemma ApplyKeepsTheTrail(t: Tables, r: Request, id: string)
    requires TrailAgrees(t, id)
    ensures TrailAgrees(Apply(t, r), id)
  {
    var u := Apply(t, r);
    if u.actions != t.actions {
      assert u.actions[..|t.actions|] == t.actions;
    }
  }

  /** After any run, replaying the trail gives exactly the registered agents, each
      with its current owner and risk tier and every other field the trail mentions. */
  lemma {:induction false} TrailMatchesTheTable(rs: seq<Request>, id: string)
    ensures TrailAgrees(Run(rs), id)
    decreases |rs|
  {
    if rs != [] {
      TrailMatchesTheTable(rs[..|rs| - 1], id);
      ApplyKeepsTheTrail(Run(rs[..|rs| - 1]), rs[|rs| - 1], id);
    }
  }

  /* ---- Exactly which fields the trail fixes ---- */

  /** The fields a creation row leaves out. */
  datatype Field = Status | DisplayName | Purpose | GrantedTools

  /** A creation row tells the owner and risk tier only; later rows may tell the rest. */
  predicate Told(k: Known, f: Field) {
    match f
    case Status => k.status.Some?
    case DisplayName => k.displayName.Some?
    case Purpose => k.purpose.Some?
    case GrantedTools => k.grantedTools.Some?
  }

  predicate SameIn(a: RegisteredAgent, b: RegisteredAgent, f: Field) {
    match f
    case Status => a.status == b.status
    case DisplayName => a.displayName == b.displayName
    case Purpose => a.purpose == b.purpose
    case GrantedTools => a.grantedTools == b.grantedTools
  }

  /** The same agent but for the field. */
  function Altered(a: RegisteredAgent, f: Field): RegisteredAgent {
    match f
    case Status => a.(status := if a.status.Active? then Suspended else Active)
    case DisplayName => a.(displayName := a.displayName + "'")
    case Purpose => a.(purpose := a.purpose + "'")
    case GrantedTools => a.(grantedTools := a.grantedTools + [ToolGrant("", None, false, [])])
  }

  lemma AlteredDiffers(a: RegisteredAgent, f: Field)
    ensures !SameIn(Altered(a, f), a, f)
  {
    assert |a.displayName + "'"| == |a.displayName| + 1 && |a.purpose + "'"| == |a.purpose| + 1;
    assert |a.grantedTools + [ToolGrant("", None, false, [])]| == |a.grantedTools| + 1;
  }

  /** The request, creating an altered agent if it creates this one. */
  function AlteredRequest(r: Request, id: string, f: Field): Request {
    if r.Create? && r.agent.spiffeId == id then r.(agent := Altered(r.agent, f)) else r
  }

  function AlteredRun(rs: seq<Request>, id: string, f: Field): seq<Request> {
    seq(|rs|, i requires 0 <= i < |rs| => AlteredRequest(rs[i], id, f))
  }

  function AlteredTables(t: Tables, id: string, f: Field): Tables {
    if id in t.agents then t.(agents := t.agents[id := Altered(t.agents[id], f)]) else t
  }

  lemma ReplayAfter(t: Tables, r: Request, id: string)
    ensures Replay(Apply(t, r).actions, id)
      == match Decide(t.agents, r)
         case (Done(_), Some(detail)) =>
           if Target(r) == id then Learn(Replay(t.actions, id), detail) else Replay(t.actions, id)
         case _ => Replay(t.actions, id)
  {
    var u := Apply(t, r);
    if u.actions != t.actions {
      assert u.actions[..|t.actions|] == t.actions;
    }
  }

  /** A request whose audit row does not tell the field cannot tell the two apart. */
  lemma AlteredApply(t: Tables, r: Request, id: string, f: Field)
    requires TrailAgrees(t, id)
    requires var known := Replay(Apply(t, r).actions, id); known.Some? ==> !Told(known.value, f)
    ensures Apply(AlteredTables(t, id, f), AlteredRequest(r, id, f)) == AlteredTables(Apply(t, r), id, f)
  {
    if Target(r) == id && id in t.agents && !r.Create? {
      AlteredTouch(t, r, f);
    } else {
      AlteredFrame(t, r, id, f);
    }
  }

  lemma AlteredFrame(t: Tables, r: Request, id: string, f: Field)
    requires !(Target(r) == id && id in t.agents && !r.Create?)
    ensures Apply(AlteredTables(t, id, f), AlteredRequest(r, id, f)) == AlteredTables(Apply(t, r), id, f)
  {
    hide Patched, Altered;
    if r.Create? {
      AlteredKeepsTheRest(r.agent, f);
    }
    var other := AlteredTables(t, id, f);
    var u, v := Apply(t, r), Apply(other, AlteredRequest(r, id, f));
    if Target(r) == id {
      assert id in t.agents ==> u == t && v == other;
    } else {
      assert id in u.agents <==> id in t.agents;
      assert v.agents == AlteredTables(u, id, f).agents;
    }
  }

  lemma AlteredTouch(t: Tables, r: Request, f: Field)
    requires !r.Create? && Target(r) in t.agents && TrailAgrees(t, Target(r))
    requires var known := Replay(Apply(t, r).actions, Target(r)); known.Some? ==> !Told(known.value, f)
    ensures Apply(AlteredTables(t, Target(r), f), r) == AlteredTables(Apply(t, r), Target(r), f)
  {
    hide Replay, Altered, Patched;
    var id := Target(r);
    ReplayAfter(t, r, id);
    AlteredRow(t.agents[id], r, f);
    AlteredKeepsTheRest(t.agents[id], f);
    var other := AlteredTables(t, id, f);
    var u, v := Apply(t, r), Apply(other, r);
    assert v.agents == AlteredTables(u, id, f).agents;
  }

  lemma AlteredKeepsTheRest(a: RegisteredAgent, f: Field)
    ensures var b := Altered(a, f);
      b.spiffeId == a.spiffeId && b.owner == a.owner && b.riskTier == a.riskTier && (f.Status? || b.status == a.status)
  {
  }

  lemma AlteredRow(row: RegisteredAgent, r: Request, f: Field)
    requires r.SetStatus? ==> !f.Status?
    requires r.Update? ==> match f
      case Status => true
      case DisplayName => r.patch.displayName.None?
      case Purpose => r.patch.purpose.None?
      case GrantedTools => r.patch.grantedTools.None?
    ensures r.Update? ==> Patched(Altered(row, f), r.patch, r.now) == Altered(Patched(row, r.patch, r.now), f)
    ensures r.SetStatus? ==>
      Altered(row, f).(status := r.status, statusChangedAt := Some(r.now), updatedAt := r.now)
      == Altered(row.(status := r.status, statusChangedAt := Some(r.now), updatedAt := r.now), f)
  {
  }

  /** Once told, a field stays told. */
  lemma StillTold(t: Tables, r: Request, id: string, f: Field)
    requires TrailAgrees(t, id)
    ensures var (before, after) := (Replay(t.actions, id), Replay(Apply(t, r).actions, id));
      before.Some? && Told(before.value, f) ==> after.Some? && Told(after.value, f)
  {
    var u := Apply(t, r);
    if u.actions != t.actions {
      assert u.actions[..|t.actions|] == t.actions;
    }
  }

  /** While the trail does not tell the field, altering it at creation changes no
      audit row of the whole run, and nothing else in the table. */
  lemma {:induction false} UntoldIsInvisible(rs: seq<Request>, id: string, f: Field)
    requires var known := Replay(Run(rs).actions, id); known.Some? ==> !Told(known.value, f)
    ensures Run(AlteredRun(rs, id, f)) == AlteredTables(Run(rs), id, f)
    decreases |rs|
  {
    hide Apply, Replay, Told, Altered, AlteredRequest, TrailAgrees;
    if rs != [] {
      var front, last := rs[..|rs| - 1], rs[|rs| - 1];
      TrailMatchesTheTable(front, id);
      StillTold(Run(front), last, id, f);
      UntoldIsInvisible(front, id, f);
      AlteredApply(Run(front), last, id, f);
      assert AlteredRun(rs, id, f)[..|rs| - 1] == AlteredRun(front, id, f);
    }
  }

  /** Every run with the same trail has the agent, alike in this field. */
  ghost predicate TrailFixes(rs: seq<Request>, id: string, f: Field)
    requires id in Run(rs).agents
  {
    forall qs :: Run(qs).actions == Run(rs).actions ==>
      id in Run(qs).agents && SameIn(Run(qs).agents[id], Run(rs).agents[id], f)
  }

  /** After any serial run, the trail fixes a field of an agent exactly when some row
      of it tells the field. */
  lemma TrailFixesIff(rs: seq<Request>, id: string, f: Field)
    requires id in Run(rs).agents
    ensures Replay(Run(rs).actions, id).Some?
    ensures TrailFixes(rs, id, f) <==> Told(Replay(Run(rs).actions, id).value, f)
  {
    TrailMatchesTheTable(rs, id);
    hide Run, Replay, Altered;
    if Told(Replay(Run(rs).actions, id).value, f) {
      forall qs | Run(qs).actions == Run(rs).actions
        ensures id in Run(qs).agents && SameIn(Run(qs).agents[id], Run(rs).agents[id], f)
      {
        TrailMatchesTheTable(qs, id);
      }
    } else {
      UntoldIsInvisible(rs, id, f);
      AlteredDiffers(Run(rs).agents[id], f);
      assert Run(AlteredRun(rs, id, f)).actions == Run(rs).actions;
    }
  }

  /** For the status: exactly when the agent's status was ever set. */
  lemma StatusIsFixedIff(rs: seq<Request>, id: string)
    requires id in Run(rs).agents
    ensures TrailFixes(rs, id, Status) <==> Transitions(Run(rs).actions, id) != []
  {
    hide Run, Replay, Transitions, TrailFixes;
    TrailFixesIff(rs, id, Status);
    StatusToldIff(rs, id);
  }

  lemma {:induction false} StatusToldIff(rs: seq<Request>, id: string)
    ensures var known := Replay(Run(rs).actions, id);
      Transitions(Run(rs).actions, id) != [] <==> known.Some? && known.value.status.Some?
    decreases |rs|
  {
    if rs != [] {
      var t, last := Run(rs[..|rs| - 1]), rs[|rs| - 1];
      var u := Apply(t, last);
      StatusToldIff(rs[..|rs| - 1], id);
      TrailMatchesTheTable(rs[..|rs| - 1], id);
      if u.actions != t.actions {
        assert u.actions[..|t.actions|] == t.actions;
      }
    }
  }

  /* ---- The adapter ---- */

  class PostgresAgentRegistry {
    var agents: map<string, RegisteredAgent>
    var actions: seq<OperatorAction>

    ghost function Contents(): Tables
      reads this
    {
      Tables(agents, actions)
    }

    constructor ()
      ensures Contents() == EMPTY
    {
      agents, actions := map[], [];
    }

    method LookUp(id: string) returns (agent: Option<RegisteredAgent>)
      ensures agent == if id in agents then Some(agents[id]) else None
    {
      return if id in agents then Some(agents[id]) else None;
    }

    method CreateAgent(agent: RegisteredAgent, operator: string, auditedAt: Timestamp) returns (o: Outcome)
      modifies this
      ensures var r := Create(agent, operator, auditedAt);
        Contents() == Apply(old(Contents()), r) && o == Decide(old(agents), r).0
    {
      if agent.spiffeId in agents {
        return DuplicateKey;
      }
      agents := agents[agent.spiffeId := agent];
      actions := actions + [OperatorAction(operator, agent.spiffeId, Created(agent.owner, agent.riskTier), auditedAt)];
      return Done(agent);
    }

    method UpdateAgent(id: string, patch: AgentPatch, operator: string, now: Timestamp, auditedAt: Timestamp)
      returns (o: Outcome)
      modifies this
      ensures var r := Update(id, patch, operator, now, auditedAt);
        Contents() == Apply(old(Contents()), r) && o == Decide(old(agents), r).0
    {
      if id !in agents {
        return AgentNotFound;
      }
      var row := agents[id];
      if patch.displayName.Some? {
        row := row.(displayName := patch.displayName.value);
      }
      if patch.purpose.Some? {
        row := row.(purpose := patch.purpose.value);
      }
      if patch.owner.Some? {
        row := row.(owner := patch.owner.value);
      }
      if patch.riskTier.Some? {
        row := row.(riskTier := patch.riskTier.value);
      }
      if patch.grantedTools.Some? {
        row := row.(grantedTools := patch.grantedTools.value);
      }
      row := row.(updatedAt := now);
      assert row == Patched(agents[id], patch, now);
      agents := agents[id := row];
      actions := actions + [OperatorAction(operator, id, Updated(patch), auditedAt)];
      return Done(row);
    }

    method SetAgentStatus(id: string, status: AgentStatus, operator: string, now: Timestamp, auditedAt: Timestamp)
      returns (o: Outcome)
      modifies this
      ensures var r := SetStatus(id, status, operator, now, auditedAt);
        Contents() == Apply(old(Contents()), r) && o == Decide(old(agents), r).0
    {
      if id !in agents {
        return AgentNotFound;
      }
      var row := agents[id];
      var previousStatus := row.status;
      row := row.(status := status, statusChangedAt := Some(now), updatedAt := now);
      agents := agents[id := row];
      actions := actions + [OperatorAction(operator, id, StatusSet(previousStatus, status), auditedAt)];
      return Done(row);
    }
  }
}

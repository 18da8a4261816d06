/**
 The gateway over the router: a call the gateway sends is the router's task of the
 same number, started when it is sent; calls, router steps and the clock interleave.
 */
module GatewayRouter {
  import opened Wrappers
  import opened CanonicalJson
  import opened Domain
  import opened Routing
  import R = RoutingRuns
  import P = Policy
  import PolicyMeaning
  import opened Governed
  import opened GovernedRuns
  import opened Coherence

  datatype Gateway = Gateway(cfg: Config, calls: map<nat, Input>, router: R.Config)

  /** `Router` is a step of a task already sent, or the clock. */
  datatype Event = Act(id: nat, effect: Effect) | Router(event: R.Event)

  datatype State = State(log: seq<Logged>, router: R.State)

  /** `forward`: which of the router's two paths a call takes. */
  function RequestOf(call: ToolCallRequest): R.Request {
    if call.rpcMethod == "tools/list" then R.List
    else R.Call(if call.toolName.Some? then call.toolName.value else "")
  }

  function StartOf(id: nat, request: R.Request): R.Event {
    match request
    case List => R.StartList(id)
    case Call(tool) => R.StartCall(id, tool)
  }

  function Step(g: Gateway, s: State, e: Event): Option<State> {
    match e
    case Act(id, effect) =>
      if !(id in g.calls && Project(s.log, id) + [effect] <= Execute(g.cfg, g.calls[id]).effects) then None
      else
        var log := s.log + [Logged(id, effect)];
        if !effect.Sent? then Some(s.(log := log))
        else
          (match R.Step(g.router, s.router, StartOf(id, RequestOf(effect.sent)))
           case Some(router) => Some(State(log, router))
           case None => None)
    case Router(event) =>
      if event.StartList? || event.StartCall? then None
      else
        match R.Step(g.router, s.router, event)
        case Some(router) => Some(s.(router := router))
        case None => None
  }

  function Run(g: Gateway, start: real, es: seq<Event>): Option<State>
    decreases |es|
  {
    if es == [] then Some(State([], R.Initial(start)))
    else
      match Run(g, start, es[..|es| - 1])
      case None => None
      case Some(s) => Step(g, s, es[|es| - 1])
  }

  /** The router's part of a run. */
  function RouterEvents(es: seq<Event>): seq<R.Event>
    decreases |es|
  {
    if es == [] then []
    else
      RouterEvents(es[..|es| - 1])
      + match es[|es| - 1]
        case Router(event) => [event]
        case Act(id, effect) => if effect.Sent? then [StartOf(id, RequestOf(effect.sent))] else []
  }

  lemma {:induction false} RouterRuns(g: Gateway, start: real, es: seq<Event>)
    requires Run(g, start, es).Some?
    ensures R.Run(g.router, R.Initial(start), RouterEvents(es)) == Some(Run(g, start, es).value.router)
    decreases |es|
  {
    hide R.Step, Execute, StartOf, RequestOf, R.Run;
    if es == [] {
      NoRouterEvents(g, start);
    } else {
      var front, last := es[..|es| - 1], es[|es| - 1];
      RouterRuns(g, start, front);
      assert RouterEvents(front) + [] == RouterEvents(front);
      if last.Router? {
        R.RunThen(g.router, R.Initial(start), RouterEvents(front), last.event);
      } else if last.effect.Sent? {
        R.RunThen(g.router, R.Initial(start), RouterEvents(front), StartOf(last.id, RequestOf(last.effect.sent)));
      }
    }
  }

  lemma NoRouterEvents(g: Gateway, start: real)
    ensures R.Run(g.router, R.Initial(start), []) == Some(R.Initial(start))
  {
  }

  /* ---- Tasks and sent calls ---- */

  /** What a task of the router was started for. */
  function RequestOfTask(task: R.Task): R.Request {
    match task
    case WaitingForLock(tool) => R.Call(tool)
    case Refreshing(request) => request
    case Listed(_) => R.List
    case Forwarded(tool, _) => R.Call(tool)
    case NoRoute(tool) => R.Call(tool)
    case Outage(request) => request
  }

  /** A router step starts at most its own task, and changes no task's request. */
  lemma StepKeepsRequests(cfg: R.Config, s: R.State, e: R.Event)
    requires R.Step(cfg, s, e).Some?
    ensures var u := R.Step(cfg, s, e).value;
      && (forall t :: t in s.tasks ==> t in u.tasks && RequestOfTask(u.tasks[t]) == RequestOfTask(s.tasks[t]))
      && (forall t :: t in u.tasks && t !in s.tasks ==>
            (e.StartList? || e.StartCall?) && t == e.task
            && RequestOfTask(u.tasks[t]) == if e.StartList? then R.List else R.Call(e.tool))
      && (e.StartList? || e.StartCall? ==> e.task in u.tasks && e.task !in s.tasks)
  {
    hide Merge, AllFailed;
  }

  /** The call's forward is in the log. */
  ghost predicate SentAs(log: seq<Logged>, id: nat, request: R.Request) {
    exists i :: 0 <= i < |log| && IsSent(log[i], id, request)
  }

  predicate IsSent(entry: Logged, id: nat, request: R.Request) {
    entry.id == id && entry.effect.Sent? && RequestOf(entry.effect.sent) == request
  }

  ghost predicate TasksAreSent(s: State) {
    && (forall id :: id in s.router.tasks ==> SentAs(s.log, id, RequestOfTask(s.router.tasks[id])))
    && (forall i :: 0 <= i < |s.log| && s.log[i].effect.Sent? ==> s.log[i].id in s.router.tasks)
  }

  ghost predicate Invariant(g: Gateway, s: State) {
    Interleaves(g.cfg, g.calls, s.log) && TasksAreSent(s)
  }

  lemma SentStays(log: seq<Logged>, entry: Logged, id: nat, request: R.Request)
    requires SentAs(log, id, request) || IsSent(entry, id, request)
    ensures SentAs(log + [entry], id, request)
  {
    hide IsSent;
    var longer := log + [entry];
    if i :| 0 <= i < |log| && IsSent(log[i], id, request) {
      assert IsSent(longer[i], id, request);
    } else {
      assert IsSent(longer[|log|], id, request);
    }
  }

  lemma ActKeepsInvariant(g: Gateway, s: State, id: nat, effect: Effect)
    requires Invariant(g, s) && Step(g, s, Act(id, effect)).Some?
    ensures Invariant(g, Step(g, s, Act(id, effect)).value)
  {
    hide Execute, R.Step, Project, RequestOfTask, RequestOf, SentAs, Interleaves;
    var u := Step(g, s, Act(id, effect)).value;
    InterleavesThen(g.cfg, g.calls, s.log, id, effect);
    if effect.Sent? {
      StepKeepsRequests(g.router, s.router, StartOf(id, RequestOf(effect.sent)));
    }
    forall t | t in u.router.tasks
      ensures SentAs(u.log, t, RequestOfTask(u.router.tasks[t]))
    {
      SentStays(s.log, Logged(id, effect), t, RequestOfTask(u.router.tasks[t]));
    }
  }

  lemma StepKeepsInvariant(g: Gateway, s: State, e: Event)
    requires Invariant(g, s) && Step(g, s, e).Some?
    ensures Invariant(g, Step(g, s, e).value)
  {
    hide Execute, R.Step, Project, RequestOfTask, SentAs, Interleaves;
    match e
    case Act(id, effect) => ActKeepsInvariant(g, s, id, effect);
    case Router(event) => StepKeepsRequests(g.router, s.router, event);
  }

  lemma {:induction false} RunKeepsInvariant(g: Gateway, start: real, es: seq<Event>)
    requires Run(g, start, es).Some?
    ensures Invariant(g, Run(g, start, es).value)
    decreases |es|
  {
    if es == [] {
      assert forall id :: Project([], id) == [];
    } else {
      hide Invariant, Step;
      RunKeepsInvariant(g, start, es[..|es| - 1]);
      StepKeepsInvariant(g, Run(g, start, es[..|es| - 1]).value, es[|es| - 1]);
    }
  }

  /* ---- What joins them ---- */

  /** The router reaches an upstream with a call only after the gateway receipted and
      sent that very call, and for the tool it was sent for. */
  lemma ForwardedWasReceipted(g: Gateway, start: real, es: seq<Event>, id: nat) returns (i: nat, j: nat)
    requires Run(g, start, es).Some?
    requires var s := Run(g, start, es).value; id in s.router.tasks && s.router.tasks[id].Forwarded?
    ensures var s := Run(g, start, es).value;
      && j < i < |s.log| && s.log[i].id == s.log[j].id == id
      && s.log[i].effect.Sent? && Permitting(s.log[j].effect) && s.log[j].effect.call == s.log[i].effect.sent
      && RequestOf(s.log[i].effect.sent) == R.Call(s.router.tasks[id].tool)
  {
    hide Run, Execute, Interleaves, RequestOf;
    RunKeepsInvariant(g, start, es);
    var s := Run(g, start, es).value;
    assert SentAs(s.log, id, RequestOfTask(s.router.tasks[id]));
    i :| 0 <= i < |s.log| && IsSent(s.log[i], id, RequestOfTask(s.router.tasks[id]));
    j := ForwardFollowsOwnReceipt(g.cfg, g.calls, s.log, i);
  }

  /** The next thing the gateway does for the call is to send it. */
  ghost predicate ReadyToSend(g: Gateway, s: State, id: nat, effect: Effect) {
    effect.Sent? && id in g.calls && Project(s.log, id) + [effect] <= Execute(g.cfg, g.calls[id]).effects
  }

  lemma NoneSentBefore(cfg: Config, inp: Input, before: seq<Effect>, effect: Effect)
    requires before + [effect] <= Execute(cfg, inp).effects && effect.Sent?
    ensures forall p :: 0 <= p < |before| ==> !before[p].Sent?
  {
    hide Execute;
    ExecuteIsWellShaped(cfg, inp);
    var effects := Execute(cfg, inp).effects;
    assert forall p :: 0 <= p < |before| ==> (before + [effect])[p] == before[p] == effects[p];
  }

  /** A call is sent once, so its task is always free to start. */
  lemma SendingIsPossible(g: Gateway, s: State, id: nat, effect: Effect)
    requires Invariant(g, s) && ReadyToSend(g, s, id, effect)
    ensures id !in s.router.tasks && Step(g, s, Act(id, effect)).Some?
  {
    hide Execute, Project, RequestOfTask, RequestOf, Interleaves;
    NoneSentBefore(g.cfg, g.calls[id], Project(s.log, id), effect);
    forall i | 0 <= i < |s.log| && s.log[i].id == id
      ensures !s.log[i].effect.Sent?
    {
      PlaceOf(s.log, i);
    }
    assert id in s.router.tasks ==> SentAs(s.log, id, RequestOfTask(s.router.tasks[id]));
  }

  /** Sending starts the router's task: a fan-out for a listing; for a call, a forward by
      the live table, or the queue. */
  lemma SendingStarts(g: Gateway, s: State, id: nat, effect: Effect)
    requires Invariant(g, s) && ReadyToSend(g, s, id, effect)
    ensures var u := Step(g, s, Act(id, effect));
      && u.Some? && id in u.value.router.tasks
      && var tool := if effect.sent.toolName.Some? then effect.sent.toolName.value else "";
      u.value.router.tasks[id]
      == if effect.sent.rpcMethod == "tools/list" then R.Refreshing(R.List)
         else if s.router.now < s.router.routesExpireAt && tool in s.router.routes
              then R.Forwarded(tool, s.router.routes[tool])
         else R.WaitingForLock(tool)
  {
    SendingIsPossible(g, s, id, effect);
    var tool := if effect.sent.toolName.Some? then effect.sent.toolName.value else "";
    R.RequestsProceed(g.router, s.router, id, tool);
    hide Execute, R.Step, Project, Invariant;
  }

  /** The answer of the router to a list task is what the gateway got from upstream. */
  predicate AnsweredByRouter(g: Gateway, s: State, id: nat, requestId: Json) {
    && id in g.calls && id in s.router.tasks && s.router.tasks[id].Listed?
    && g.calls[id].upstream == Responds(ListResponse(requestId, s.router.tasks[id].tools))
  }

  /** What was sent is the call authorized. */
  lemma SentIsAuthorized(cfg: Config, inp: Input, p: nat)
    requires p < |Execute(cfg, inp).effects| && Execute(cfg, inp).effects[p].Sent?
    ensures var sent := Execute(cfg, inp).effects[p].sent;
      && Authorize(cfg, inp).result.Outcome? && Authorize(cfg, inp).result.call == sent
      && sent.rpcMethod == inp.rpcMethod && sent.toolName == inp.toolName
      && inp.lookup == Some(sent.registration)
  {
    hide FilterListing, Judge, SubjectFor, CredentialFor;
    ExecuteIsWellShaped(cfg, inp);
  }

  /** A listing that came back through the gateway is what the router listed, filtered. */
  lemma ListingIsSurviving(cfg: Config, list: Input, requestId: Json, tools: seq<Tool>, listing: Members)
    requires list.rpcMethod == "tools/list" && list.upstream == Responds(ListResponse(requestId, tools))
    requires Execute(cfg, list).result == Response(listing)
    ensures Authorize(cfg, list).result.Outcome?
    ensures ToolsOf(listing) == Surviving(tools, GrantedNames(Authorize(cfg, list).result.call))
  {
    hide FilterListing, Surviving, ListResponse, ToolsOf, GrantedNames, Authorize, Execute;
    ListedThrough(cfg, list);
    ResponseFields(requestId, tools);
    FilterKeepsTheRest(list.upstream.response, Authorize(cfg, list).result.call, listing, "");
  }

  lemma TaskListing(cfg: R.Config, start: real, es: seq<R.Event>, list: nat) returns (n: nat)
    requires R.Run(cfg, R.Initial(start), es).Some?
    requires var s := R.Run(cfg, R.Initial(start), es).value; list in s.tasks && s.tasks[list].Listed?
    ensures var s := R.Run(cfg, R.Initial(start), es).value;
      n < |s.installs| && |s.installs[n].answers| == |cfg.names|
      && s.tasks[list].tools == Merge(cfg.names, s.installs[n].answers).tools
  {
    hide R.Run, Merge;
    RunKeepsListings(cfg, start, es);
    var s := R.Run(cfg, R.Initial(start), es).value;
    n :| ListedBy(cfg, s, list, n);
  }

  lemma ShowsAt(tools: seq<Tool>, i: nat, name: string)
    requires i < |tools| && ToolName(tools[i]) == Some(name)
    ensures Shows(tools, name)
  {
  }

  /** Sending a `tools/call` starts the router's task for its tool. */
  lemma StepSends(g: Gateway, s: State, id: nat, effect: Effect, name: string)
    requires ReadyToSend(g, s, id, effect) && effect.sent.rpcMethod == "tools/call"
        && effect.sent.toolName == Some(name)
    requires R.Step(g.router, s.router, R.StartCall(id, name)).Some?
    ensures var u := Step(g, s, Act(id, effect));
      u.Some? && u.value.router == R.Step(g.router, s.router, R.StartCall(id, name)).value
  {
    hide R.Step, Execute, Project;
    assert "tools/call" != "tools/list" by { PolicyMeaning.MethodsDiffer(); }
  }

  /** The listing task was answered, and its table is the latest and live. */
  ghost predicate ListingInForce(g: Gateway, s: State, list: nat, requestId: Json) {
    && AnsweredByRouter(g, s, list, requestId) && g.calls[list].rpcMethod == "tools/list"
    && s.router.installs != [] && s.router.installs[|s.router.installs| - 1].owner == list
    && s.router.now < s.router.routesExpireAt
  }

  /** The call is for this tool, from an agent whose registration did not change, and
      the policy engine answers for it. */
  predicate CallsTool(g: Gateway, engine: P.Engine, list: nat, id: nat, sent: ToolCallRequest, tool: Tool)
    requires list in g.calls && id in g.calls
  {
    && g.calls[id].rpcMethod == "tools/call" && g.calls[id].toolName == ToolName(tool)
    && g.calls[id].lookup == g.calls[list].lookup
    && g.calls[id].policy == AnswerOf(P.Evaluate(engine, sent))
  }

  /** The `k`-th upstream listed this very descriptor in the latest refresh. */
  ghost predicate HeldBy(g: Gateway, s: State, tool: Tool, k: nat)
    requires s.router.installs != []
  {
    var answers := s.router.installs[|s.router.installs| - 1].answers;
    k < |g.router.names| == |answers| && tool in ListingOf(answers[k])
  }

  /** End to end. An agent lists through the gateway and the router, and calls a tool
      it was shown, while the table of that listing is in force. When the gateway sends
      the call, the router forwards it at once to the upstream whose own listing held
      the descriptor the agent was shown; and it is never refused as not granted. */
  lemma ShownReachesItsUpstream(g: Gateway, engine: P.Engine, start: real, es: seq<Event>, s: State, list: nat,
                                requestId: Json, listing: Members, i: nat, id: nat, effect: Effect)
    returns (name: string, k: nat)
    requires Run(g, start, es) == Some(s)
    requires ListingInForce(g, s, list, requestId)
    requires Execute(g.cfg, g.calls[list]).result == Response(listing) && i < |ToolsOf(listing)|
    requires ReadyToSend(g, s, id, effect) && CallsTool(g, engine, list, id, effect.sent, ToolsOf(listing)[i])
    ensures ToolName(ToolsOf(listing)[i]) == Some(name) && HeldBy(g, s, ToolsOf(listing)[i], k)
    ensures var u := Step(g, s, Act(id, effect));
      u.Some? && id in u.value.router.tasks && u.value.router.tasks[id] == R.Forwarded(name, g.router.names[k])
    ensures Execute(g.cfg, g.calls[id]).result != PolicyViolation(P.NOT_GRANTED)
  {
    hide Run, Step, Invariant, Execute, Authorize, R.Run, R.Step, Surviving, ListResponse, ToolsOf, ToolName,
         GrantedNames, P.Evaluate, Project;
    var tools := s.router.tasks[list].tools;
    RunKeepsInvariant(g, start, es);
    RouterRuns(g, start, es);
    SendingIsPossible(g, s, id, effect);
    SentIsAuthorized(g.cfg, g.calls[id], |Project(s.log, id)|);
    ListingIsSurviving(g.cfg, g.calls[list], requestId, tools, listing);
    var granted := GrantedNames(Authorize(g.cfg, g.calls[list]).result.call);
    name, k := ShownIsRouted(g.router, start, RouterEvents(es), list, granted, i, id);
    StepSends(g, s, id, effect, name);
    ShownIsNeverUngranted(g, engine, start, es, s, list, requestId, listing, i, id, effect, name);
  }

  lemma ShownIsNeverUngranted(g: Gateway, engine: P.Engine, start: real, es: seq<Event>, s: State, list: nat,
                              requestId: Json, listing: Members, i: nat, id: nat, effect: Effect, name: string)
    requires Run(g, start, es) == Some(s)
    requires ListingInForce(g, s, list, requestId)
    requires Execute(g.cfg, g.calls[list]).result == Response(listing) && i < |ToolsOf(listing)|
    requires ReadyToSend(g, s, id, effect) && CallsTool(g, engine, list, id, effect.sent, ToolsOf(listing)[i])
    requires ToolName(ToolsOf(listing)[i]) == Some(name)
    ensures Execute(g.cfg, g.calls[id]).result != PolicyViolation(P.NOT_GRANTED)
  {
    hide Run, Execute, Authorize, R.Run, Surviving, ListResponse, ToolsOf, ToolName, GrantedNames, P.Evaluate,
         Project, Merge;
    RouterRuns(g, start, es);
    SentIsAuthorized(g.cfg, g.calls[id], |Project(s.log, id)|);
    var n := TaskListing(g.router, start, RouterEvents(es), list);
    ShowsAt(ToolsOf(listing), i, name);
    ListedThenCalled(g.cfg, engine, g.router.names, s.router.installs[n].answers, requestId,
                     g.calls[list], g.calls[id], listing, name);
  }
}

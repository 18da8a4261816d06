/**
 `RoutingMCPUpstream` under concurrency: lists and calls interleave at every
 await, and refreshes may overlap. What runs between two awaits is one step.
 */
module RoutingRuns {
  import opened Wrappers
  import opened CanonicalJson
  import opened Routing

  datatype Config = Config(names: seq<string>, ttl: real)

  datatype Request = List | Call(tool: string)

  datatype Task =
    | WaitingForLock(tool: string)
    | Refreshing(request: Request)                     // the fan-out is in flight
    | Listed(tools: seq<Tool>)
    | Forwarded(tool: string, upstream: string)
    | NoRoute(tool: string)                            // "no configured upstream advertises ..."
    | Outage(request: Request)                         // "every configured upstream failed"

  /** A refresh that succeeded: who ran it, on what answers, when. */
  datatype Install = Install(owner: nat, answers: seq<Answer>, at: real)

  /** A call sent on, with the install whose table routed it. */
  datatype Forward = Forward(task: nat, tool: string, upstream: string, install: int, at: real)

  datatype Event =
    | StartList(task: nat)
    | StartCall(task: nat, tool: string)
    | AcquireLock(task: nat)
    | FinishRefresh(task: nat, answers: seq<Answer>)
    | Tick(elapsed: real)

  /** The adapter's fields and clock, what each caller is doing, and three history variables. */
  datatype State = State(
    routes: map<string, string>,
    routesExpireAt: real,
    lockedBy: Option<nat>,
    now: real,
    tasks: map<nat, Task>,
    installs: seq<Install>,
    forwards: seq<Forward>,
    fanOuts: nat)

  function Initial(now: real): State {
    State(map[], 0.0, None, now, map[], [], [], 0)
  }

  /** The cached route applies. */
  predicate Fresh(s: State, tool: string) {
    s.now < s.routesExpireAt && tool in s.routes
  }

  function ForwardCall(s: State, t: nat, tool: string): State
    requires tool in s.routes
  {
    s.(tasks := s.tasks[t := Forwarded(tool, s.routes[tool])],
       forwards := s.forwards + [Forward(t, tool, s.routes[tool], |s.installs| - 1, s.now)])
  }

  function InstallRoutes(cfg: Config, s: State, t: nat, answers: seq<Answer>): State
    requires |answers| == |cfg.names|
  {
    s.(routes := Merge(cfg.names, answers).routes,
       routesExpireAt := s.now + cfg.ttl,
       installs := s.installs + [Install(t, answers, s.now)])
  }

  /** `_refresh` after its await, and what its caller does before the next one. */
  function Finish(cfg: Config, s: State, t: nat, request: Request, answers: seq<Answer>): State
    requires |answers| == |cfg.names|
  {
    var s := if request.Call? then s.(lockedBy := None) else s;
    if AllFailed(answers) then s.(tasks := s.tasks[t := Outage(request)])
    else
      var s := InstallRoutes(cfg, s, t, answers);
      match request
      case List => s.(tasks := s.tasks[t := Listed(Merge(cfg.names, answers).tools)])
      case Call(tool) => if tool in s.routes then ForwardCall(s, t, tool) else s.(tasks := s.tasks[t := NoRoute(tool)])
  }

  function Step(cfg: Config, s: State, e: Event): Option<State> {
    match e
    case StartList(t) =>
      if t in s.tasks then None
      else Some(s.(tasks := s.tasks[t := Refreshing(List)], fanOuts := s.fanOuts + 1))
    case StartCall(t, tool) =>
      if t in s.tasks then None
      else if Fresh(s, tool) then Some(ForwardCall(s, t, tool))
      else Some(s.(tasks := s.tasks[t := WaitingForLock(tool)]))
    case AcquireLock(t) =>
      if t !in s.tasks || !s.tasks[t].WaitingForLock? || s.lockedBy.Some? then None
      else
        var tool := s.tasks[t].tool;
        if Fresh(s, tool) then Some(ForwardCall(s, t, tool))        // double check: another caller refreshed
        else Some(s.(lockedBy := Some(t), tasks := s.tasks[t := Refreshing(Call(tool))], fanOuts := s.fanOuts + 1))
    case FinishRefresh(t, answers) =>
      if t !in s.tasks || !s.tasks[t].Refreshing? || |answers| != |cfg.names| then None
      else Some(Finish(cfg, s, t, s.tasks[t].request, answers))
    case Tick(elapsed) =>
      if elapsed < 0.0 then None else Some(s.(now := s.now + elapsed))
  }

  function Run(cfg: Config, s: State, es: seq<Event>): Option<State>
    decreases |es|
  {
    if es == [] then Some(s)
    else
      match Run(cfg, s, es[..|es| - 1])
      case None => None
      case Some(t) => Step(cfg, t, es[|es| - 1])
  }

  /* ---- The invariant ---- */

  /** The fields are what the latest install left. */
  ghost predicate TableOk(cfg: Config, s: State) {
    && (s.installs == [] ==> s.routes == map[])
    && (s.installs != [] ==>
          var last := s.installs[|s.installs| - 1];
          && |last.answers| == |cfg.names|
          && s.routes == Merge(cfg.names, last.answers).routes
          && s.routesExpireAt == last.at + cfg.ttl)
  }

  ghost predicate InstallsOk(cfg: Config, s: State) {
    forall i :: 0 <= i < |s.installs| ==>
      |s.installs[i].answers| == |cfg.names| && !AllFailed(s.installs[i].answers) && s.installs[i].at <= s.now
  }

  /** The call went where the table of its install routes it; that install was
      the latest at the time, and was the call's own or less than one TTL old. */
  ghost predicate ForwardOk(cfg: Config, installs: seq<Install>, f: Forward) {
    && 0 <= f.install < |installs|
    && var used := installs[f.install];
    && |used.answers| == |cfg.names|
    && f.tool in Merge(cfg.names, used.answers).routes
    && f.upstream == Merge(cfg.names, used.answers).routes[f.tool]
    && (used.owner == f.task || f.at < used.at + cfg.ttl)
    && used.at <= f.at
    && forall j :: f.install < j < |installs| ==> f.at <= installs[j].at
  }

  ghost predicate ForwardsOk(cfg: Config, s: State) {
    && (forall k :: 0 <= k < |s.forwards| ==> ForwardOk(cfg, s.installs, s.forwards[k]) && s.forwards[k].at <= s.now)
    && (forall k :: 0 <= k < |s.forwards| ==>
          && s.forwards[k].task in s.tasks
          && s.tasks[s.forwards[k].task] == Forwarded(s.forwards[k].tool, s.forwards[k].upstream))
  }

  ghost predicate ForwardedOnce(s: State) {
    && (forall j, k :: 0 <= j < k < |s.forwards| ==> s.forwards[j].task != s.forwards[k].task)
    && (forall t :: t in s.tasks && s.tasks[t].Forwarded? ==>
          exists k :: 0 <= k < |s.forwards| && s.forwards[k].task == t)
  }

  ghost predicate LockOk(s: State) {
    && (forall t :: t in s.tasks && s.tasks[t].Refreshing? && s.tasks[t].request.Call? ==> s.lockedBy == Some(t))
    && (s.lockedBy.Some? ==>
          && s.lockedBy.value in s.tasks
          && s.tasks[s.lockedBy.value].Refreshing? && s.tasks[s.lockedBy.value].request.Call?)
  }

  ghost predicate Invariant(cfg: Config, s: State) {
    CoreOk(cfg, s) && LockOk(s)
  }

  lemma ForwardKeepsInvariant(cfg: Config, s: State, t: nat, tool: string)
    requires TableOk(cfg, s) && InstallsOk(cfg, s) && ForwardsOk(cfg, s) && ForwardedOnce(s)
    requires tool in s.routes
    requires t in s.tasks ==> !s.tasks[t].Forwarded?
    requires Fresh(s, tool) || (s.installs != [] && s.installs[|s.installs| - 1].owner == t)
    ensures var u := ForwardCall(s, t, tool);
      TableOk(cfg, u) && InstallsOk(cfg, u) && ForwardsOk(cfg, u) && ForwardedOnce(u)
  {
    hide Merge, AllFailed;
    var u := ForwardCall(s, t, tool);
    assert ForwardOk(cfg, s.installs, u.forwards[|s.forwards|]);
    forall q | q in u.tasks && u.tasks[q].Forwarded?
      ensures exists k :: 0 <= k < |u.forwards| && u.forwards[k].task == q
    {
      if q == t {
        assert u.forwards[|s.forwards|].task == t;
      } else {
        var k :| 0 <= k < |s.forwards| && s.forwards[k].task == q;
        assert u.forwards[k].task == q;
      }
    }
  }

  lemma InstallKeepsInvariant(cfg: Config, s: State, t: nat, answers: seq<Answer>)
    requires TableOk(cfg, s) && InstallsOk(cfg, s) && ForwardsOk(cfg, s) && ForwardedOnce(s)
    requires |answers| == |cfg.names| && !AllFailed(answers)
    ensures var u := InstallRoutes(cfg, s, t, answers);
      TableOk(cfg, u) && InstallsOk(cfg, u) && ForwardsOk(cfg, u) && ForwardedOnce(u)
  {
    hide Merge, AllFailed;
    var u := InstallRoutes(cfg, s, t, answers);
    forall k | 0 <= k < |s.forwards|
      ensures ForwardOk(cfg, u.installs, u.forwards[k])
    {
      assert ForwardOk(cfg, s.installs, s.forwards[k]);
    }
  }

  ghost predicate CoreOk(cfg: Config, s: State) {
    TableOk(cfg, s) && InstallsOk(cfg, s) && ForwardsOk(cfg, s) && ForwardedOnce(s)
  }

  /** A task that has not been forwarded may end without a forward. */
  lemma EndTaskKeepsCore(cfg: Config, s: State, t: nat, end: Task)
    requires CoreOk(cfg, s) && (t in s.tasks ==> !s.tasks[t].Forwarded?) && !end.Forwarded?
    ensures CoreOk(cfg, s.(tasks := s.tasks[t := end]))
  {
    hide Merge, AllFailed, ForwardOk;
  }

  lemma FinishKeepsCore(cfg: Config, s: State, t: nat, request: Request, answers: seq<Answer>)
    requires CoreOk(cfg, s) && t in s.tasks && !s.tasks[t].Forwarded? && |answers| == |cfg.names|
    ensures CoreOk(cfg, Finish(cfg, s, t, request, answers))
  {
    hide Merge, AllFailed, ForwardsOk, InstallsOk, ForwardedOnce, TableOk;
    var released := if request.Call? then s.(lockedBy := None) else s;
    UnlockKeepsCore(cfg, s);
    if AllFailed(answers) {
      EndTaskKeepsCore(cfg, released, t, Outage(request));
    } else {
      InstallKeepsInvariant(cfg, released, t, answers);
      var installed := InstallRoutes(cfg, released, t, answers);
      match request
      case List => EndTaskKeepsCore(cfg, installed, t, Listed(Merge(cfg.names, answers).tools));
      case Call(tool) =>
        if tool in installed.routes {
          ForwardKeepsInvariant(cfg, installed, t, tool);
        } else {
          EndTaskKeepsCore(cfg, installed, t, NoRoute(tool));
        }
    }
  }

  lemma UnlockKeepsCore(cfg: Config, s: State)
    requires CoreOk(cfg, s)
    ensures CoreOk(cfg, s.(lockedBy := None))
  {
    hide Merge, AllFailed, ForwardOk;
  }

  lemma FinishKeepsLock(cfg: Config, s: State, t: nat, answers: seq<Answer>)
    requires LockOk(s) && t in s.tasks && s.tasks[t].Refreshing? && |answers| == |cfg.names|
    ensures LockOk(Finish(cfg, s, t, s.tasks[t].request, answers))
  {
    hide Merge, AllFailed;
  }

  lemma StepKeepsInvariant(cfg: Config, s: State, e: Event)
    requires Invariant(cfg, s) && Step(cfg, s, e).Some?
    ensures Invariant(cfg, Step(cfg, s, e).value)
  {
    hide Merge, AllFailed, ForwardOk, Finish;
    match e
    case StartList(_) =>
    case StartCall(t, tool) =>
      if Fresh(s, tool) {
        ForwardKeepsInvariant(cfg, s, t, tool);
      }
    case AcquireLock(t) =>
      if Fresh(s, s.tasks[t].tool) {
        ForwardKeepsInvariant(cfg, s, t, s.tasks[t].tool);
      }
    case FinishRefresh(t, answers) =>
      FinishKeepsCore(cfg, s, t, s.tasks[t].request, answers);
      FinishKeepsLock(cfg, s, t, answers);
    case Tick(_) =>
  }

  lemma {:induction false} RunKeepsInvariant(cfg: Config, now: real, es: seq<Event>)
    requires Run(cfg, Initial(now), es).Some?
    ensures Invariant(cfg, Run(cfg, Initial(now), es).value)
    decreases |es|
  {
    if es != [] {
      hide Invariant, Step;
      RunKeepsInvariant(cfg, now, es[..|es| - 1]);
      StepKeepsInvariant(cfg, Run(cfg, Initial(now), es[..|es| - 1]).value, es[|es| - 1]);
    }
  }

  /** Whatever interleaves: a routed call is forwarded exactly once, to the first
      configured upstream that advertised the tool in the refresh whose table was
      used; that table was the latest then, and was installed by the call itself
      or less than one TTL before. */
  lemma EveryForwardIsRouted(cfg: Config, now: real, es: seq<Event>, t: nat) returns (f: Forward)
    requires Run(cfg, Initial(now), es).Some?
    requires var s := Run(cfg, Initial(now), es).value; t in s.tasks && s.tasks[t].Forwarded?
    ensures var s := Run(cfg, Initial(now), es).value;
      && f in s.forwards && f.task == t && s.tasks[t] == Forwarded(f.tool, f.upstream)
      && (forall j, k :: 0 <= j < k < |s.forwards| ==> s.forwards[j].task != s.forwards[k].task)
      && ForwardOk(cfg, s.installs, f)
      && var i := FirstAdvertiser(s.installs[f.install].answers, f.tool);
      && i < |cfg.names| && f.upstream == cfg.names[i] && Advertises(s.installs[f.install].answers[i], f.tool)
  {
    hide Step, Merge, AllFailed, Advertises, FirstAdvertiser;
    RunKeepsInvariant(cfg, now, es);
    var s := Run(cfg, Initial(now), es).value;
    var k :| 0 <= k < |s.forwards| && s.forwards[k].task == t;
    f := s.forwards[k];
    RoutedToFirstAdvertiser(cfg.names, s.installs[f.install].answers, f.tool);
  }

  /** A refresh in which every upstream failed changes neither table nor expiry. */
  lemma OutageChangesNothing(cfg: Config, s: State, t: nat, answers: seq<Answer>)
    requires t in s.tasks && s.tasks[t].Refreshing? && |answers| == |cfg.names| && AllFailed(answers)
    ensures var u := Finish(cfg, s, t, s.tasks[t].request, answers);
      && u.routes == s.routes && u.routesExpireAt == s.routesExpireAt && u.installs == s.installs
      && u.forwards == s.forwards && u.tasks == s.tasks[t := Outage(s.tasks[t].request)]
  {
  }

  /** How a call that had to refresh ends. An unreachable upstream's tool is
      reported as advertised by nobody, unless every upstream is unreachable. */
  lemma RefreshedCallEnds(cfg: Config, s: State, t: nat, answers: seq<Answer>)
    requires t in s.tasks && s.tasks[t].Refreshing? && s.tasks[t].request.Call? && |answers| == |cfg.names|
    ensures var tool := s.tasks[t].request.tool;
      var i := FirstAdvertiser(answers, tool);
      Finish(cfg, s, t, s.tasks[t].request, answers).tasks[t]
      == if AllFailed(answers) then Outage(Call(tool))
         else if i < |answers| then Forwarded(tool, cfg.names[i])
         else NoRoute(tool)
  {
    hide Merge, Advertises, FirstAdvertiser;
    RoutedToFirstAdvertiser(cfg.names, answers, s.tasks[t].request.tool);
  }

  /** How a `tools/list` ends: whenever its fan-out's answers are in it is answered, with
      exactly the first offer of each name, in order, unless every upstream failed. */
  lemma RefreshedListEnds(cfg: Config, s: State, t: nat, answers: seq<Answer>)
    requires t in s.tasks && s.tasks[t] == Refreshing(List) && |answers| == |cfg.names|
    ensures Step(cfg, s, FinishRefresh(t, answers)).Some?
    ensures var u := Step(cfg, s, FinishRefresh(t, answers)).value;
      && t in u.tasks
      && (AllFailed(answers) ==> u.tasks[t] == Outage(List))
      && (!AllFailed(answers) ==>
            && u.tasks[t].Listed? && u.tasks[t].tools == Merge(cfg.names, answers).tools
            && IsFirstOffers(u.tasks[t].tools, Offers(cfg.names, answers)))
  {
    hide Keep, Offers, AllFailed, IsFirstOffers;
    MergedAreFirstOffers(cfg.names, answers);
  }

  /** The tools are those of the first offers. */
  ghost predicate IsFirstOffers(tools: seq<Tool>, offers: seq<Offer>) {
    var firsts := Firsts(offers);
    |tools| == |firsts| && forall i :: 0 <= i < |firsts| ==> firsts[i] < |offers| && tools[i] == offers[firsts[i]].tool
  }

  lemma MergedAreFirstOffers(names: seq<string>, answers: seq<Answer>)
    requires |names| == |answers|
    ensures IsFirstOffers(Merge(names, answers).tools, Offers(names, answers))
  {
    hide Keep, Firsts, Offers;
    ListingIsFirstOffers(Offers(names, answers));
  }

  /** No request waits in vain: a list starts its fan-out at once; a call is forwarded
      at once or queues; and whoever queues gets the lock when it is free, to be
      forwarded or to fan out. */
  lemma RequestsProceed(cfg: Config, s: State, t: nat, tool: string)
    ensures t !in s.tasks ==>
      var u := Step(cfg, s, StartList(t));
      u.Some? && t in u.value.tasks && u.value.tasks[t] == Refreshing(List) && u.value.fanOuts == s.fanOuts + 1
    ensures t !in s.tasks ==>
      var u := Step(cfg, s, StartCall(t, tool));
      && u.Some? && t in u.value.tasks
      && u.value.tasks[t] == if s.now < s.routesExpireAt && tool in s.routes then Forwarded(tool, s.routes[tool])
                             else WaitingForLock(tool)
    ensures t in s.tasks && s.tasks[t] == WaitingForLock(tool) && s.lockedBy.None? ==>
      var u := Step(cfg, s, AcquireLock(t));
      && u.Some? && t in u.value.tasks
      && u.value.tasks[t] == if s.now < s.routesExpireAt && tool in s.routes then Forwarded(tool, s.routes[tool])
                             else Refreshing(Call(tool))
    ensures t in s.tasks && s.tasks[t].Refreshing? ==>
      forall answers: seq<Answer> | |answers| == |cfg.names| :: Step(cfg, s, FinishRefresh(t, answers)).Some?
  {
    hide Merge, AllFailed;
  }

  /** So the promise that such a call "reports which upstream is unreachable" fails:
      `crm` is down, and a call for its tool is told no upstream advertises it. */
  lemma UnreachableIsReportedAsUnknown()
    ensures var cfg := Config(["finance", "crm"], 300.0);
      var es := [StartCall(0, "update_account"), AcquireLock(0), FinishRefresh(0, [Answered(NoMembers), Failed])];
      var s := Run(cfg, Initial(0.0), es);
      s.Some? && s.value.tasks == map[0 := NoRoute("update_account")]
  {
    var cfg := Config(["finance", "crm"], 300.0);
    var e1, e2, e3 := StartCall(0, "update_account"), AcquireLock(0), FinishRefresh(0, [Answered(NoMembers), Failed]);
    hide Finish, ListingOf;
    RunThen(cfg, Initial(0.0), [], e1);
    RunThen(cfg, Initial(0.0), [e1], e2);
    assert [] + [e1] == [e1] && [e1] + [e2] == [e1, e2] && [e1, e2] + [e3] == [e1, e2, e3];
    var s2 := Run(cfg, Initial(0.0), [e1, e2]).value;
    assert s2.tasks == map[0 := Refreshing(Call("update_account"))];
    RunThen(cfg, Initial(0.0), [e1, e2], e3);
    NothingListed(e3.answers);
    RefreshedCallEnds(cfg, s2, 0, e3.answers);
    FinishTouchesOneTask(cfg, s2, 0, e3.answers);
  }

  lemma NothingListed(answers: seq<Answer>)
    requires answers == [Answered(NoMembers), Failed]
    ensures !AllFailed(answers) && FirstAdvertiser(answers, "update_account") == 2
  {
    assert answers[0].Answered?;
    assert ListingOf(answers[0]) == [] && ListingOf(answers[1]) == [];
  }

  lemma FinishTouchesOneTask(cfg: Config, s: State, t: nat, answers: seq<Answer>)
    requires t in s.tasks && s.tasks[t].Refreshing? && |answers| == |cfg.names|
    ensures var u := Finish(cfg, s, t, s.tasks[t].request, answers); u.tasks == s.tasks[t := u.tasks[t]]
  {
    hide Merge, AllFailed;
  }

  lemma RunThen(cfg: Config, s: State, es: seq<Event>, e: Event)
    requires Run(cfg, s, es).Some?
    ensures Run(cfg, s, es + [e]) == Step(cfg, Run(cfg, s, es).value, e)
  {
    hide Step;
    assert (es + [e])[..|es|] == es;
  }
}

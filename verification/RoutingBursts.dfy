/**
 The double-checked lock of `_route_for`: how many fan-outs a burst of calls for
 one tool causes. One, when the first refresh advertises the tool; one for each
 caller, when no refresh does.
 */
module RoutingBursts {
  import opened Wrappers
  import opened CanonicalJson
  import opened Routing
  import opened RoutingRuns

  /** Every queued caller wants `tool`, and no other refresh is in flight than `holder`'s. */
  ghost predicate OnlyThisTool(s: State, tool: string, holder: Option<nat>) {
    && (forall t :: t in s.tasks && s.tasks[t].WaitingForLock? ==> s.tasks[t].tool == tool)
    && (forall t :: t in s.tasks && s.tasks[t].Refreshing? ==> holder == Some(t) && s.tasks[t].request == Call(tool))
  }

  /** Some caller holds the lock and its fan-out for `tool` is in flight. */
  ghost predicate BurstStart(s: State, tool: string, holder: nat) {
    && s.lockedBy == Some(holder) && holder in s.tasks && s.tasks[holder] == Refreshing(Call(tool))
    && OnlyThisTool(s, tool, Some(holder))
  }

  predicate AdvertisedIn(answers: seq<Answer>, tool: string) {
    FirstAdvertiser(answers, tool) < |answers|
  }

  /** No tools/list, and every refresh advertises the tool. */
  predicate AdvertisingEvent(e: Event, tool: string) {
    match e
    case StartList(_) => false
    case StartCall(_, x) => x == tool
    case AcquireLock(_) => true
    case FinishRefresh(_, answers) => AdvertisedIn(answers, tool)
    case Tick(_) => true
  }

  /** A burst: only such events, and the installed table does not expire during it. */
  ghost predicate AdvertisedBurst(cfg: Config, s: State, es: seq<Event>, tool: string)
    decreases |es|
  {
    es == [] ||
    (&& AdvertisedBurst(cfg, s, es[..|es| - 1], tool)
     && AdvertisingEvent(es[|es| - 1], tool)
     && Run(cfg, s, es).Some?
     && (Run(cfg, s, es).value.lockedBy.None? ==> Run(cfg, s, es).value.now < Run(cfg, s, es).value.routesExpireAt))
  }

  /** Where a burst stands: the fan-out still in flight, or its table in force. */
  ghost predicate BurstOk(s: State, tool: string, holder: nat) {
    || BurstStart(s, tool, holder)
    || (s.lockedBy.None? && Fresh(s, tool) && OnlyThisTool(s, tool, None))
  }

  lemma BurstStep(cfg: Config, s: State, e: Event, tool: string, holder: nat)
    requires BurstOk(s, tool, holder) && AdvertisingEvent(e, tool) && Step(cfg, s, e).Some?
    requires var u := Step(cfg, s, e).value; u.lockedBy.None? ==> u.now < u.routesExpireAt
    ensures var u := Step(cfg, s, e).value;
      && BurstOk(u, tool, holder) && u.fanOuts == s.fanOuts
      && (Fresh(s, tool) && s.lockedBy.None? ==> u.routes == s.routes)
  {
    hide Merge, FirstAdvertiser, Finish;
    if e.FinishRefresh? {
      FinishAdvertised(cfg, s, e.task, e.answers, tool);
    }
  }

  lemma FinishAdvertised(cfg: Config, s: State, t: nat, answers: seq<Answer>, tool: string)
    requires t in s.tasks && s.tasks[t] == Refreshing(Call(tool)) && |answers| == |cfg.names|
        && AdvertisedIn(answers, tool)
    ensures var u := Finish(cfg, s, t, Call(tool), answers);
      && u.lockedBy.None? && u.fanOuts == s.fanOuts && tool in u.routes
      && u.tasks == s.tasks[t := Forwarded(tool, u.routes[tool])]
  {
    hide Merge, FirstAdvertiser;
    RoutedToFirstAdvertiser(cfg.names, answers, tool);
    if AllFailed(answers) {
      NobodyAdvertisesInOutage(answers, tool);
    }
  }

  lemma NobodyAdvertisesInOutage(answers: seq<Answer>, tool: string)
    requires AllFailed(answers)
    ensures FirstAdvertiser(answers, tool) == |answers|
  {
  }

  /** A queued caller is still queued, or was forwarded by the table of the one refresh. */
  ghost predicate Served(s: State, u: State, tool: string) {
    forall t :: t in s.tasks && s.tasks[t].WaitingForLock? ==>
      t in u.tasks && (u.tasks[t] == s.tasks[t]
        || (u.lockedBy.None? && tool in u.routes && u.tasks[t] == Forwarded(tool, u.routes[tool])))
  }

  lemma ServedStep(cfg: Config, s: State, u: State, e: Event, tool: string, holder: nat)
    requires BurstOk(u, tool, holder) && Served(s, u, tool) && AdvertisingEvent(e, tool) && Step(cfg, u, e).Some?
    requires var v := Step(cfg, u, e).value; v.lockedBy.None? ==> v.now < v.routesExpireAt
    ensures Served(s, Step(cfg, u, e).value, tool)
  {
    hide Merge, FirstAdvertiser, Finish;
    BurstStep(cfg, u, e, tool, holder);
    if e.FinishRefresh? {
      FinishAdvertised(cfg, u, e.task, e.answers, tool);
    }
  }

  /** However many callers queue for a tool behind a refresh that advertises it,
      there is no further fan-out, and all are forwarded by that one table. */
  lemma {:induction false} OneFanOutPerBurst(cfg: Config, s: State, es: seq<Event>, tool: string, holder: nat)
    requires BurstStart(s, tool, holder) && AdvertisedBurst(cfg, s, es, tool)
    ensures Run(cfg, s, es).Some?
    ensures var u := Run(cfg, s, es).value;
      u.fanOuts == s.fanOuts && BurstOk(u, tool, holder) && Served(s, u, tool)
    decreases |es|
  {
    if es != [] {
      hide Step, BurstOk, BurstStart, Served;
      var front := es[..|es| - 1];
      OneFanOutPerBurst(cfg, s, front, tool, holder);
      var u := Run(cfg, s, front).value;
      BurstStep(cfg, u, es[|es| - 1], tool, holder);
      ServedStep(cfg, s, u, es[|es| - 1], tool, holder);
    }
  }

  /* ---- When no refresh advertises the tool ---- */

  predicate UnadvertisedEvent(e: Event, tool: string) {
    match e
    case StartList(_) => false
    case StartCall(_, x) => x == tool
    case AcquireLock(_) => true
    case FinishRefresh(_, answers) => !AdvertisedIn(answers, tool)
    case Tick(_) => true
  }

  predicate UnadvertisedBurst(es: seq<Event>, tool: string) {
    forall i :: 0 <= i < |es| ==> UnadvertisedEvent(es[i], tool)
  }

  function Acquisitions(es: seq<Event>): nat
    decreases |es|
  {
    if es == [] then 0 else Acquisitions(es[..|es| - 1]) + if es[|es| - 1].AcquireLock? then 1 else 0
  }

  lemma UnadvertisedStep(cfg: Config, s: State, e: Event, tool: string)
    requires !Fresh(s, tool) && UnadvertisedEvent(e, tool) && Step(cfg, s, e).Some?
    requires forall t :: t in s.tasks && s.tasks[t].WaitingForLock? ==> s.tasks[t].tool == tool
    ensures var u := Step(cfg, s, e).value;
      && !Fresh(u, tool)
      && u.fanOuts == s.fanOuts + (if e.AcquireLock? then 1 else 0)
      && (forall t :: t in u.tasks && u.tasks[t].WaitingForLock? ==> u.tasks[t].tool == tool)
  {
    hide Merge, FirstAdvertiser, AllFailed;
    if e.FinishRefresh? {
      RoutedToFirstAdvertiser(cfg.names, e.answers, tool);
    }
  }

  /** Then every caller that gets the lock fans out once more, whether the table
      lacks the tool or has merely expired. */
  lemma {:induction false} EveryCallerFansOut(cfg: Config, s: State, es: seq<Event>, tool: string)
    requires !Fresh(s, tool) && UnadvertisedBurst(es, tool) && Run(cfg, s, es).Some?
    requires forall t :: t in s.tasks && s.tasks[t].WaitingForLock? ==> s.tasks[t].tool == tool
    ensures var u := Run(cfg, s, es).value;
      && !Fresh(u, tool)
      && u.fanOuts == s.fanOuts + Acquisitions(es)
      && (forall t :: t in u.tasks && u.tasks[t].WaitingForLock? ==> u.tasks[t].tool == tool)
    decreases |es|
  {
    if es != [] {
      hide Step, AdvertisedIn, Fresh;
      var front := es[..|es| - 1];
      assert forall i :: 0 <= i < |front| ==> front[i] == es[i];
      EveryCallerFansOut(cfg, s, front, tool);
      UnadvertisedStep(cfg, Run(cfg, s, front).value, es[|es| - 1], tool);
    }
  }

  /* ---- Exactly when a burst causes no further fan-out ---- */

  /** Calls for the tool only, and no tools/list; refreshes may answer anything. */
  predicate BurstEvent(e: Event, tool: string) {
    match e
    case StartList(_) => false
    case StartCall(_, x) => x == tool
    case _ => true
  }

  predicate Burst(es: seq<Event>, tool: string) {
    forall i :: 0 <= i < |es| ==> BurstEvent(es[i], tool)
  }

  /** Nobody refreshes, and whoever waits wants the tool. */
  ghost predicate Quiet(s: State, tool: string) {
    s.lockedBy.None? && OnlyThisTool(s, tool, None)
  }

  /** The clock never runs back and fan-outs are never taken back. */
  lemma StepIsMonotone(cfg: Config, s: State, e: Event)
    requires Step(cfg, s, e).Some?
    ensures var u := Step(cfg, s, e).value; s.now <= u.now && s.fanOuts <= u.fanOuts
  {
    hide Merge, AllFailed;
  }

  /** While nobody refreshes and the table is stale, only the lock leads to a fan-out. */
  lemma StepAfterMiss(cfg: Config, s: State, e: Event, tool: string)
    requires Quiet(s, tool) && !Fresh(s, tool) && BurstEvent(e, tool) && Step(cfg, s, e).Some?
    ensures var u := Step(cfg, s, e).value;
      if e.AcquireLock? then u.fanOuts == s.fanOuts + 1
      else u.fanOuts == s.fanOuts && Quiet(u, tool) && !Fresh(u, tool)
  {
    hide Merge, AllFailed, Finish;
  }

  lemma {:induction false} AfterMiss(cfg: Config, s: State, es: seq<Event>, tool: string)
    requires Quiet(s, tool) && !Fresh(s, tool) && Burst(es, tool) && Run(cfg, s, es).Some?
    ensures var u := Run(cfg, s, es).value;
      if Acquisitions(es) == 0 then u.fanOuts == s.fanOuts && Quiet(u, tool) && !Fresh(u, tool)
      else u.fanOuts > s.fanOuts
    decreases |es|
  {
    if es != [] {
      hide Step, Quiet, Fresh, BurstEvent;
      var front, last := es[..|es| - 1], es[|es| - 1];
      assert forall i :: 0 <= i < |front| ==> front[i] == es[i];
      AfterMiss(cfg, s, front, tool);
      var u := Run(cfg, s, front).value;
      StepIsMonotone(cfg, u, last);
      if Acquisitions(front) == 0 {
        StepAfterMiss(cfg, u, last, tool);
      }
    }
  }

  /** While the table names the tool and is live, nothing leads to a fan-out. */
  lemma StepAfterHit(cfg: Config, s: State, e: Event, tool: string)
    requires Quiet(s, tool) && Fresh(s, tool) && BurstEvent(e, tool) && Step(cfg, s, e).Some?
    ensures var u := Step(cfg, s, e).value;
      && u.fanOuts == s.fanOuts && Quiet(u, tool) && tool in u.routes && u.routesExpireAt == s.routesExpireAt
  {
    hide Merge, AllFailed, Finish;
  }

  lemma {:induction false} AfterHit(cfg: Config, s: State, es: seq<Event>, tool: string)
    requires Quiet(s, tool) && Fresh(s, tool) && Burst(es, tool) && Run(cfg, s, es).Some?
    requires Run(cfg, s, es).value.now < s.routesExpireAt
    ensures var u := Run(cfg, s, es).value;
      && u.fanOuts == s.fanOuts && Quiet(u, tool) && Fresh(u, tool) && u.routesExpireAt == s.routesExpireAt
    decreases |es|
  {
    if es != [] {
      hide Step, Quiet, BurstEvent;
      var front, last := es[..|es| - 1], es[|es| - 1];
      assert forall i :: 0 <= i < |front| ==> front[i] == es[i];
      StepIsMonotone(cfg, Run(cfg, s, front).value, last);
      AfterHit(cfg, s, front, tool);
      StepAfterHit(cfg, Run(cfg, s, front).value, last, tool);
    }
  }

  /** The state in which the holder's fan-out leaves the burst. */
  lemma HolderFinishes(cfg: Config, s: State, tool: string, holder: nat, answers: seq<Answer>)
    requires BurstStart(s, tool, holder) && !Fresh(s, tool) && |answers| == |cfg.names| && 0.0 < cfg.ttl
    ensures var u := Finish(cfg, s, holder, Call(tool), answers);
      && Quiet(u, tool) && u.fanOuts == s.fanOuts
      && (Fresh(u, tool) <==> AdvertisedIn(answers, tool))
  {
    hide Merge, FirstAdvertiser;
    RoutedToFirstAdvertiser(cfg.names, answers, tool);
    if AllFailed(answers) {
      NobodyAdvertisesInOutage(answers, tool);
    }
  }

  /** From a fan-out in flight for a stale tool: let it finish on any answers, then
      let any calls for the tool come and go, its table, if it has the tool, not
      expiring. There is no further fan-out exactly when the tool was advertised, or
      nobody got the lock. */
  lemma OneFanOutIff(cfg: Config, s: State, tool: string, holder: nat, answers: seq<Answer>, es: seq<Event>)
    requires BurstStart(s, tool, holder) && !Fresh(s, tool) && |answers| == |cfg.names| && 0.0 < cfg.ttl
    requires var u := Finish(cfg, s, holder, Call(tool), answers);
      && Burst(es, tool) && Run(cfg, u, es).Some?
      && (AdvertisedIn(answers, tool) ==> Run(cfg, u, es).value.now < u.routesExpireAt)
    ensures var u := Finish(cfg, s, holder, Call(tool), answers);
      && Step(cfg, s, FinishRefresh(holder, answers)) == Some(u)
      && (Run(cfg, u, es).value.fanOuts == s.fanOuts <==> AdvertisedIn(answers, tool) || Acquisitions(es) == 0)
  {
    HolderFinishes(cfg, s, tool, holder, answers);
    var u := Finish(cfg, s, holder, Call(tool), answers);
    hide Finish, Run, Fresh, AdvertisedIn, Quiet;
    if AdvertisedIn(answers, tool) {
      AfterHit(cfg, u, es, tool);
    } else {
      AfterMiss(cfg, u, es, tool);
    }
  }

  /** "One fan-out, not one per caller" fails for a tool nobody advertises: a
      burst of two callers fans out twice. */
  lemma TwoCallersTwoFanOuts()
    ensures var cfg := Config(["finance"], 300.0);
      var s := Run(cfg, Initial(0.0), [StartCall(0, "unknown"), StartCall(1, "unknown"), AcquireLock(0),
                                       FinishRefresh(0, [Answered(NoMembers)]), AcquireLock(1)]);
      s.Some? && s.value.fanOuts == 2
  {
    hide Merge, AllFailed;
    var cfg, s := Config(["finance"], 300.0), Initial(0.0);
    var e1, e2, e3, e4, e5 :=
      StartCall(0, "unknown"), StartCall(1, "unknown"), AcquireLock(0),
      FinishRefresh(0, [Answered(NoMembers)]), AcquireLock(1);
    assert [] + [e1] == [e1] && [e1] + [e2] == [e1, e2] && [e1, e2] + [e3] == [e1, e2, e3];
    assert [e1, e2, e3] + [e4] == [e1, e2, e3, e4] && [e1, e2, e3, e4] + [e5] == [e1, e2, e3, e4, e5];
    RunThen(cfg, s, [], e1);
    RunThen(cfg, s, [e1], e2);
    RunThen(cfg, s, [e1, e2], e3);
    RunThen(cfg, s, [e1, e2, e3], e4);
    FinishTouchesOneTask(cfg, Run(cfg, s, [e1, e2, e3]).value, 0, e4.answers);
    NothingAdvertised(e4.answers, "unknown");
    UnadvertisedStep(cfg, Run(cfg, s, [e1, e2, e3]).value, e4, "unknown");
    RunThen(cfg, s, [e1, e2, e3, e4], e5);
  }

  lemma NothingAdvertised(answers: seq<Answer>, tool: string)
    requires answers == [Answered(NoMembers)]
    ensures !AdvertisedIn(answers, tool)
  {
    assert ListingOf(answers[0]) == [];
  }
}

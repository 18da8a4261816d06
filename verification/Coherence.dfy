/**
 List/call coherence: what an agent sees in the routed, filtered listing is what it
 may call, and a call goes to the upstream whose descriptor it saw.
 */
module Coherence {
  import opened Wrappers
  import opened CanonicalJson
  import opened Receipts
  import opened Domain
  import opened Routing
  import R = RoutingRuns
  import opened Policy
  import PolicyMeaning
  import opened Governed

  function ListItems(tools: seq<Tool>): Items {
    if tools == [] then NoItems else Item(Obj(tools[0]), ListItems(tools[1..]))
  }

  /** The response `_list` builds around a merged listing. */
  function ListResponse(requestId: Json, tools: seq<Tool>): Members {
    Member("jsonrpc", Str("2.0"),
    Member("id", requestId,
    Member("result", Obj(Member("tools", Arr(ListItems(tools)), NoMembers)), NoMembers)))
  }

  /** The tools whose name is granted, in order. */
  function Surviving(tools: seq<Tool>, granted: set<string>): seq<Tool> {
    if tools == [] then []
    else (if NamesGranted(tools[0], granted) then [tools[0]] else []) + Surviving(tools[1..], granted)
  }

  lemma {:induction false} ListItemsAreTools(tools: seq<Tool>)
    ensures Dictionaries(ListItems(tools)) == tools
  {
    if tools != [] {
      ListItemsAreTools(tools[1..]);
    }
  }

  lemma {:induction false} FilterIsSurviving(tools: seq<Tool>, granted: set<string>)
    ensures FilterTools(ListItems(tools), granted) == ListItems(Surviving(tools, granted))
  {
    hide NamesGranted;
    if tools != [] {
      FilterIsSurviving(tools[1..], granted);
      var rest := Surviving(tools[1..], granted);
      assert ([tools[0]] + rest)[1..] == rest && [] + rest == rest;
    }
  }

  lemma {:induction false} NamedToolsAreHashable(tools: seq<Tool>)
    requires forall i :: 0 <= i < |tools| ==> ToolName(tools[i]).Some?
    ensures !SomeUnhashable(ListItems(tools))
  {
    if tools != [] {
      assert ToolName(tools[0]).Some?;
      NamedToolsAreHashable(tools[1..]);
    }
  }

  lemma ResponseFields(requestId: Json, tools: seq<Tool>)
    ensures Get(ListResponse(requestId, tools), "result")
        == Some(Obj(Member("tools", Arr(ListItems(tools)), NoMembers)))
    ensures Get(Member("tools", Arr(ListItems(tools)), NoMembers), "tools") == Some(Arr(ListItems(tools)))
    ensures ToolsOf(ListResponse(requestId, tools)) == tools
  {
    hide ListItems;
    var result := Member("tools", Arr(ListItems(tools)), NoMembers);
    assert "jsonrpc" != "id" && "jsonrpc" != "result" && "id" != "result";
    PolicyMeaning.GetSkips("result", Obj(result), NoMembers, "result");
    PolicyMeaning.GetSkips("id", requestId, Member("result", Obj(result), NoMembers), "result");
    PolicyMeaning.GetSkips("tools", Arr(ListItems(tools)), NoMembers, "tools");
    ListItemsAreTools(tools);
  }

  lemma ReplaceTools(requestId: Json, tools: seq<Tool>, items: Items)
    ensures var result := Member("tools", Arr(ListItems(tools)), NoMembers);
      && Replace(result, "tools", Arr(items)) == Member("tools", Arr(items), NoMembers)
      && Replace(ListResponse(requestId, tools), "result", Obj(Member("tools", Arr(items), NoMembers)))
         == Member("jsonrpc", Str("2.0"),
           Member("id", requestId, Member("result", Obj(Member("tools", Arr(items), NoMembers)), NoMembers)))
  {
    hide ListItems;
    assert "jsonrpc" != "result" && "id" != "result";
    var result := Obj(Member("tools", Arr(ListItems(tools)), NoMembers));
    var value := Obj(Member("tools", Arr(items), NoMembers));
    var r1 := Member("result", result, NoMembers);
    assert Replace(r1, "result", value) == Member("result", value, NoMembers);
    assert Replace(Member("id", requestId, r1), "result", value)
      == Member("id", requestId, Member("result", value, NoMembers));
  }

  /** Filtering a merged listing never fails, and leaves the granted tools in order. */
  lemma FilteredListing(names: seq<string>, answers: seq<Answer>, requestId: Json, call: ToolCallRequest)
    requires |names| == |answers| && call.rpcMethod == "tools/list"
    ensures var tools := Merge(names, answers).tools;
      FilterListing(ListResponse(requestId, tools), call)
      == Some(ListResponse(requestId, Surviving(tools, GrantedNames(call))))
  {
    hide Merge, ListItems, FilterTools, Surviving, SomeUnhashable, Firsts, Offers, ToolName, GrantedNames, Get, Replace;
    var tools := Merge(names, answers).tools;
    ListingMatchesRoutes(names, answers);
    NamedToolsAreHashable(tools);
    ResponseFields(requestId, tools);
    FilterIsSurviving(tools, GrantedNames(call));
    ReplaceTools(requestId, tools, FilterTools(ListItems(tools), GrantedNames(call)));
  }

  lemma {:induction false} FilterDictionaries(items: Items, granted: set<string>)
    ensures Dictionaries(FilterTools(items, granted)) == Surviving(Dictionaries(items), granted)
  {
    hide NamesGranted;
    match items
    case NoItems =>
    case Item(Obj(tool), tail) =>
      FilterDictionaries(tail, granted);
      assert ([tool] + Dictionaries(tail))[1..] == Dictionaries(tail);
      assert [] + Surviving(Dictionaries(tail), granted) == Surviving(Dictionaries(tail), granted);
    case Item(_, tail) => FilterDictionaries(tail, granted);
  }

  lemma {:induction false} ReplacesOne(ms: Members, key: string, value: Json, other: string)
    requires Get(ms, key).Some?
    ensures Get(Replace(ms, key, value), other) == if other == key then Some(value) else Get(ms, other)
  {
    match ms
    case NoMembers =>
    case Member(k, v, rest) =>
      if k != key {
        ReplacesOne(rest, key, value, other);
      }
  }

  /** The response has the shape of a listing, of these items. */
  predicate Lists(response: Members, result: Members, items: Items) {
    Get(response, "result") == Some(Obj(result)) && Get(result, "tools") == Some(Arr(items))
  }

  lemma ListsTools(response: Members, result: Members, items: Items)
    requires Lists(response, result, items)
    ensures ToolsOf(response) == Dictionaries(items)
  {
    hide Dictionaries, Get;
  }

  lemma RelistedResponse(response: Members, result: Members, items: Items, kept: Items, key: string)
    requires Lists(response, result, items)
    ensures var relisted := Replace(response, "result", Obj(Replace(result, "tools", Arr(kept))));
      && Lists(relisted, Replace(result, "tools", Arr(kept)), kept)
      && (key != "result" ==> Get(relisted, key) == Get(response, key))
  {
    hide Get, Replace;
    var value := Replace(result, "tools", Arr(kept));
    ReplacesOne(result, "tools", Arr(kept), "tools");
    ReplacesOne(response, "result", Obj(value), "result");
    ReplacesOne(response, "result", Obj(value), key);
  }

  /** What `_filter_listing` does, by the shape of the response. */
  lemma FilterByShape(response: Members, call: ToolCallRequest, result: Members, items: Items)
    requires call.rpcMethod == "tools/list" && Lists(response, result, items) && FilterListing(response, call).Some?
    ensures FilterListing(response, call)
      == Some(Replace(response, "result", Obj(Replace(result, "tools", Arr(FilterTools(items, GrantedNames(call)))))))
  {
    hide FilterTools, SomeUnhashable, GrantedNames, Get, Replace;
  }

  lemma UnlistedIsKept(response: Members, call: ToolCallRequest)
    requires call.rpcMethod != "tools/list" || forall result, items :: !Lists(response, result, items)
    ensures FilterListing(response, call) == Some(response)
    ensures call.rpcMethod == "tools/list" ==> ToolsOf(response) == []
  {
    hide FilterTools, SomeUnhashable, GrantedNames, Get, Replace, Dictionaries;
    if call.rpcMethod == "tools/list" {
      var r := Get(response, "result");
      if r.Some? && r.value.Obj? {
        var t := Get(r.value.members, "tools");
        assert !(t.Some? && t.value.Arr? && Lists(response, r.value.members, t.value.items));
      }
    }
  }

  /** Whatever an upstream answers: the filter keeps exactly its granted tools, in
      order, and every other field of the response. */
  lemma FilterKeepsTheRest(response: Members, call: ToolCallRequest, filtered: Members, key: string)
    requires FilterListing(response, call) == Some(filtered)
    ensures call.rpcMethod != "tools/list" ==> filtered == response
    ensures call.rpcMethod == "tools/list" ==> ToolsOf(filtered) == Surviving(ToolsOf(response), GrantedNames(call))
    ensures key != "result" ==> Get(filtered, key) == Get(response, key)
  {
    hide FilterListing, FilterTools, Surviving, GrantedNames, Dictionaries, Get, Replace, ToolsOf, Lists;
    NothingSurvives(GrantedNames(call));
    if result, items :| call.rpcMethod == "tools/list" && Lists(response, result, items) {
      var kept := FilterTools(items, GrantedNames(call));
      FilterByShape(response, call, result, items);
      RelistedResponse(response, result, items, kept, key);
      ListsTools(response, result, items);
      ListsTools(filtered, Replace(result, "tools", Arr(kept)), kept);
      FilterDictionaries(items, GrantedNames(call));
    } else {
      UnlistedIsKept(response, call);
    }
  }

  /** Filtering raises exactly on a listing that holds a dictionary whose name is a list
      or a dictionary, which Python cannot look up in a set. */
  lemma FilterRaisesIff(response: Members, call: ToolCallRequest)
    ensures FilterListing(response, call).None? <==>
      && call.rpcMethod == "tools/list"
      && exists tool :: tool in ToolsOf(response) && Get(tool, "name").Some? && IsContainer(Get(tool, "name").value)
  {
    hide FilterTools, GrantedNames, Get, Replace, Dictionaries, ToolsOf, SomeUnhashable, IsContainer;
    if result, items :| call.rpcMethod == "tools/list" && Lists(response, result, items) {
      ListsTools(response, result, items);
      SomeUnhashableIff(items);
    } else {
      UnlistedIsKept(response, call);
    }
  }

  predicate IsContainer(v: Json) {
    v.Arr? || v.Obj?
  }

  lemma {:induction false} SomeUnhashableIff(items: Items)
    ensures SomeUnhashable(items) <==>
      exists tool :: tool in Dictionaries(items) && Get(tool, "name").Some? && IsContainer(Get(tool, "name").value)
  {
    hide Get;
    match items
    case NoItems =>
    case Item(Obj(tool), tail) =>
      SomeUnhashableIff(tail);
      assert Dictionaries(items) == [tool] + Dictionaries(tail);
      if Unhashable(tool) {
        assert tool in Dictionaries(items);
      }
    case Item(_, tail) => SomeUnhashableIff(tail);
  }

  /** A tool's name is its string under `name`; any other value is no name. */
  lemma ToolNameIff(tool: Tool, name: string)
    ensures ToolName(tool) == Some(name) <==> Get(tool, "name") == Some(Str(name))
  {
    hide Get;
  }

  /** The tools of an answer are the dictionaries of its `result.tools` array; any other
      shape has none. */
  lemma {:induction false} DictionariesIff(items: Items, tool: Tool)
    ensures tool in Dictionaries(items) <==> Obj(tool) in ItemsOf(items)
  {
    match items
    case NoItems =>
    case Item(_, tail) => DictionariesIff(tail, tool);
  }

  lemma NothingSurvives(granted: set<string>)
    ensures Surviving([], granted) == []
  {
  }

  /* ---- Which tools survive ---- */

  lemma {:induction false} SurvivorIsGranted(tools: seq<Tool>, granted: set<string>, i: nat) returns (p: nat)
    requires i < |Surviving(tools, granted)|
    ensures p < |tools| && tools[p] == Surviving(tools, granted)[i] && NamesGranted(tools[p], granted)
  {
    hide NamesGranted;
    var kept := if NamesGranted(tools[0], granted) then 1 else 0;
    if i < kept {
      p := 0;
    } else {
      var q := SurvivorIsGranted(tools[1..], granted, i - kept);
      p := q + 1;
    }
  }

  lemma {:induction false} GrantedSurvives(tools: seq<Tool>, granted: set<string>, p: nat) returns (i: nat)
    requires p < |tools| && NamesGranted(tools[p], granted)
    ensures i < |Surviving(tools, granted)| && Surviving(tools, granted)[i] == tools[p]
  {
    hide NamesGranted;
    if p == 0 {
      i := 0;
    } else {
      var j := GrantedSurvives(tools[1..], granted, p - 1);
      i := j + if NamesGranted(tools[0], granted) then 1 else 0;
    }
  }

  lemma {:induction false} SurvivorsKeepOrder(tools: seq<Tool>, granted: set<string>, i: nat, j: nat)
    returns (p: nat, q: nat)
    requires i < j < |Surviving(tools, granted)|
    ensures p < q < |tools| && tools[p] == Surviving(tools, granted)[i] && tools[q] == Surviving(tools, granted)[j]
  {
    hide NamesGranted;
    var kept := if NamesGranted(tools[0], granted) then 1 else 0;
    if i < kept {
      var r := SurvivorIsGranted(tools[1..], granted, j - kept);
      p, q := 0, r + 1;
    } else {
      var r, s := SurvivorsKeepOrder(tools[1..], granted, i - kept, j - kept);
      p, q := r + 1, s + 1;
    }
  }

  ghost predicate Shows(tools: seq<Tool>, name: string) {
    exists i :: 0 <= i < |tools| && ToolName(tools[i]) == Some(name)
  }

  /** A name is shown exactly when it is granted and some upstream advertises it. */
  lemma ShownIff(names: seq<string>, answers: seq<Answer>, granted: set<string>, name: string)
    requires |names| == |answers|
    ensures Shows(Surviving(Merge(names, answers).tools, granted), name)
            <==> name in granted && FirstAdvertiser(answers, name) < |answers|
  {
    hide Merge, Surviving, Firsts, Offers, ToolName, FirstAdvertiser, Advertises;
    var m := Merge(names, answers);
    var shown := Surviving(m.tools, granted);
    ListingMatchesRoutes(names, answers);
    RoutedToFirstAdvertiser(names, answers, name);
    if Shows(shown, name) {
      var i :| 0 <= i < |shown| && ToolName(shown[i]) == Some(name);
      var p := SurvivorIsGranted(m.tools, granted, i);
      assert ToolName(m.tools[p]) == Some(name) && name in m.routes;
    }
    if name in granted && name in m.routes {
      var p :| 0 <= p < |m.tools| && ToolName(m.tools[p]) == Some(name);
      var i := GrantedSurvives(m.tools, granted, p);
      assert ToolName(shown[i]) == Some(name);
    }
  }

  /** The names that survive are those whose call would find its grant. */
  lemma GrantedNamesIff(list: ToolCallRequest, name: string)
    ensures name in GrantedNames(list) <==> IsGranted(list.(toolName := Some(name)))
  {
    if list.registration.Some? {
      var gs := list.registration.value.grantedTools;
      if name in GrantedNames(list) {
        var g :| g in gs && g.name == name;
        var i :| 0 <= i < |gs| && gs[i] == g;
      }
    }
  }

  /** So a name is shown exactly when a call for it would be granted, and some upstream
      advertises it. */
  lemma ShownIffGranted(names: seq<string>, answers: seq<Answer>, list: ToolCallRequest, name: string)
    requires |names| == |answers|
    ensures Shows(Surviving(Merge(names, answers).tools, GrantedNames(list)), name)
            <==> IsGranted(list.(toolName := Some(name))) && FirstAdvertiser(answers, name) < |answers|
  {
    hide Merge, Surviving, FirstAdvertiser, GrantedNames, IsGranted, Shows;
    ShownIff(names, answers, GrantedNames(list), name);
    GrantedNamesIff(list, name);
  }

  /** The shown tools keep the order of their first offers, hence no name twice. */
  lemma ShownInOrder(names: seq<string>, answers: seq<Answer>, granted: set<string>, i: nat, j: nat)
    requires |names| == |answers|
    requires i < j < |Surviving(Merge(names, answers).tools, granted)|
    ensures var shown := Surviving(Merge(names, answers).tools, granted); var offers := Offers(names, answers);
      && ToolName(shown[i]).Some? && ToolName(shown[j]).Some?
      && FirstIndex(offers, ToolName(shown[i]).value) < FirstIndex(offers, ToolName(shown[j]).value) < |offers|
  {
    hide Merge, Surviving, Firsts, Offers, ToolName, FirstIndex;
    ListingMatchesRoutes(names, answers);
    var p, q := SurvivorsKeepOrder(Merge(names, answers).tools, granted, i, j);
    ListedAtFirstIndex(names, answers, p);
    ListedAtFirstIndex(names, answers, q);
    FirstsAreFirst(Offers(names, answers));
  }

  lemma ListedAtFirstIndex(names: seq<string>, answers: seq<Answer>, p: nat)
    requires |names| == |answers| && p < |Merge(names, answers).tools|
    ensures var tool := Merge(names, answers).tools[p]; var offers := Offers(names, answers);
      && ToolName(tool).Some? && p < |Firsts(offers)|
      && FirstIndex(offers, ToolName(tool).value) == Firsts(offers)[p] < |offers|
  {
    hide Merge, Firsts, Offers, ToolName;
    ListingMatchesRoutes(names, answers);
    FirstsAreFirst(Offers(names, answers));
    var offers := Offers(names, answers);
    var k := Firsts(offers)[p];
    assert k in Firsts(offers) && IsFirstOffer(offers, k);
  }

  /* ---- Calling a shown tool ---- */

  /** The policy answers that the capability is not granted. */
  predicate RefusedAsUngranted(engine: Engine, call: ToolCallRequest) {
    var answer := Evaluate(engine, call);
    answer.Some? && answer.value.reason == NOT_GRANTED
  }

  /** Whatever its arguments or subject, a call for a shown tool, under the same
      registration, is not denied as not granted; it is allowed exactly when the agent
      is active, no guardrail objects, and the grants of that name do not conflict. */
  lemma ShownIsCallable(engine: Engine, names: seq<string>, answers: seq<Answer>, list: ToolCallRequest,
                        name: string, call: ToolCallRequest)
    requires |names| == |answers|
    requires Shows(Surviving(Merge(names, answers).tools, GrantedNames(list)), name)
    requires call.rpcMethod == "tools/call" && call.toolName == Some(name) && call.registration == list.registration
    ensures IsGranted(call) && !RefusedAsUngranted(engine, call)
    ensures Allows(engine, call)
      <==> call.registration.value.status.Active? && !Violates(engine, call) && ConflictFree(call)
  {
    hide Merge, Surviving, Project, Evaluate, Violates, FirstAdvertiser, ConflictFree;
    ShownIff(names, answers, GrantedNames(list), name);
    var gs := call.registration.value.grantedTools;
    var g :| g in gs && g.name == name;
    var i :| 0 <= i < |gs| && gs[i] == g;
    assert IsGranted(call);
    UngrantedIsRefusedAsSuch(engine, call);
    PolicyMeaning.AllowIff(engine, call);
    assert "tools/call" != "tools/list" by { PolicyMeaning.MethodsDiffer(); }
  }

  lemma NotGrantedStartsWithC()
    ensures |NOT_GRANTED| > 0 && NOT_GRANTED[0] == 'C'
  {
    assert "Capability not granted"[0] == 'C';
  }

  /** That answer is given to every ungranted call, and to no other. */
  lemma UngrantedIsRefusedAsSuch(engine: Engine, call: ToolCallRequest)
    ensures RefusedAsUngranted(engine, call) <==> call.rpcMethod == "tools/call" && !IsGranted(call)
  {
    hide Evaluate, Project, Violates, IsGranted, ConflictFree;
    PolicyMeaning.DecisionTable(engine, call);
    assert "tools/call" != "tools/list" by { PolicyMeaning.MethodsDiffer(); }
    NotGrantedStartsWithC();
    assert "Tool arguments exceed authorized thresholds"[0] == 'T' && "Denied by policy"[0] == 'D';
  }

  /* ---- Which listing a task was shown ---- */

  predicate Ended(task: R.Task) {
    !task.WaitingForLock? && !task.Refreshing?
  }

  /** Every install has an owner that ended with it, each owner one install. */
  ghost predicate OwnersOk(s: R.State) {
    && (forall n :: 0 <= n < |s.installs| ==> s.installs[n].owner in s.tasks && Ended(s.tasks[s.installs[n].owner]))
    && (forall m, n :: 0 <= m < n < |s.installs| ==> s.installs[m].owner != s.installs[n].owner)
  }

  /** A list task was answered with the merged listing of its own install. */
  ghost predicate ListedBy(cfg: R.Config, s: R.State, t: nat, n: int)
    requires t in s.tasks && s.tasks[t].Listed?
  {
    && 0 <= n < |s.installs| && s.installs[n].owner == t
    && |s.installs[n].answers| == |cfg.names|
    && s.tasks[t].tools == Merge(cfg.names, s.installs[n].answers).tools
  }

  ghost predicate ListingsOk(cfg: R.Config, s: R.State) {
    && OwnersOk(s)
    && forall t :: t in s.tasks && s.tasks[t].Listed? ==> exists n :: ListedBy(cfg, s, t, n)
  }

  /** What a step does to installs and to tasks that have ended. */
  lemma StepEnds(cfg: R.Config, s: R.State, e: R.Event)
    requires R.Step(cfg, s, e).Some?
    ensures var u := R.Step(cfg, s, e).value;
      && (forall t :: t in s.tasks && Ended(s.tasks[t]) ==> t in u.tasks && u.tasks[t] == s.tasks[t])
      && (u.installs == s.installs
          || (&& e.FinishRefresh? && e.task in s.tasks && !Ended(s.tasks[e.task])
              && u.installs == s.installs + [R.Install(e.task, e.answers, s.now)]
              && e.task in u.tasks && Ended(u.tasks[e.task])))
      && (forall t :: t in u.tasks && u.tasks[t].Listed? && !(t in s.tasks && s.tasks[t].Listed?) ==>
            && u.installs == s.installs + [R.Install(t, e.answers, s.now)] && |e.answers| == |cfg.names|
            && u.tasks[t].tools == Merge(cfg.names, e.answers).tools)
  {
    hide Merge, AllFailed;
  }

  lemma StepKeepsListings(cfg: R.Config, s: R.State, e: R.Event)
    requires ListingsOk(cfg, s) && R.Step(cfg, s, e).Some?
    ensures ListingsOk(cfg, R.Step(cfg, s, e).value)
  {
    hide Merge, R.Step;
    var u := R.Step(cfg, s, e).value;
    StepEnds(cfg, s, e);
    forall t | t in u.tasks && u.tasks[t].Listed?
      ensures exists n :: ListedBy(cfg, u, t, n)
    {
      if t in s.tasks && s.tasks[t].Listed? {
        var n :| ListedBy(cfg, s, t, n);
        assert ListedBy(cfg, u, t, n);
      } else {
        assert ListedBy(cfg, u, t, |s.installs|);
      }
    }
  }

  lemma {:induction false} RunKeepsListings(cfg: R.Config, start: real, es: seq<R.Event>)
    requires R.Run(cfg, R.Initial(start), es).Some?
    ensures ListingsOk(cfg, R.Run(cfg, R.Initial(start), es).value)
    decreases |es|
  {
    if es != [] {
      hide ListingsOk, R.Step;
      RunKeepsListings(cfg, start, es[..|es| - 1]);
      StepKeepsListings(cfg, R.Run(cfg, R.Initial(start), es[..|es| - 1]).value, es[|es| - 1]);
    }
  }

  /** In any run, once task `list` was answered with `tools`, and while its table is
      the latest and in force, a call for any tool it was shown is forwarded at once
      to the upstream whose own listing held the descriptor shown. */
  lemma ShownIsRouted(cfg: R.Config, start: real, es: seq<R.Event>, list: nat, granted: set<string>, i: nat, t: nat)
    returns (name: string, k: nat)
    requires R.Run(cfg, R.Initial(start), es).Some?
    requires var s := R.Run(cfg, R.Initial(start), es).value;
      && list in s.tasks && s.tasks[list].Listed? && i < |Surviving(s.tasks[list].tools, granted)|
      && s.installs != [] && s.installs[|s.installs| - 1].owner == list
      && s.now < s.routesExpireAt && t !in s.tasks
    ensures var s := R.Run(cfg, R.Initial(start), es).value;
      var tool := Surviving(s.tasks[list].tools, granted)[i];
      var answers := s.installs[|s.installs| - 1].answers;
      && ToolName(tool) == Some(name)
      && k < |cfg.names| == |answers| && tool in ListingOf(answers[k])
      && R.Step(cfg, s, R.StartCall(t, name)).Some? && t in R.Step(cfg, s, R.StartCall(t, name)).value.tasks
      && R.Step(cfg, s, R.StartCall(t, name)).value.tasks[t] == R.Forwarded(name, cfg.names[k])
  {
    hide R.Run, R.Step, Merge, Surviving, Firsts, Offers, ToolName;
    R.RunKeepsInvariant(cfg, start, es);
    RunKeepsListings(cfg, start, es);
    var s := R.Run(cfg, R.Initial(start), es).value;
    var n :| ListedBy(cfg, s, list, n);
    assert n == |s.installs| - 1;
    var answers := s.installs[n].answers;
    assert s.routes == Merge(cfg.names, answers).routes;
    var p := SurvivorIsGranted(s.tasks[list].tools, granted, i);
    name, k := ListedToolIsRouted(cfg.names, answers, p);
    FreshCallIsForwarded(cfg, s, t, name);
  }

  lemma FreshCallIsForwarded(cfg: R.Config, s: R.State, t: nat, name: string)
    requires t !in s.tasks && s.now < s.routesExpireAt && name in s.routes
    ensures var r := R.Step(cfg, s, R.StartCall(t, name));
      r.Some? && t in r.value.tasks && r.value.tasks[t] == R.Forwarded(name, s.routes[name])
  {
  }

  /** A listed descriptor comes from the listing of the upstream its name is routed to. */
  lemma ListedToolIsRouted(names: seq<string>, answers: seq<Answer>, p: nat) returns (name: string, k: nat)
    requires |names| == |answers| && p < |Merge(names, answers).tools|
    ensures var m := Merge(names, answers);
      && ToolName(m.tools[p]) == Some(name) && name in m.routes
      && k < |names| && m.routes[name] == names[k] && m.tools[p] in ListingOf(answers[k])
  {
    hide Merge, Firsts, Offers, ToolName;
    ListingMatchesRoutes(names, answers);
    var offers := Offers(names, answers);
    var o := Firsts(offers)[p];
    name := offers[o].name;
    k := OfferComesFrom(names, answers, o);
  }

  lemma {:induction false} OfferComesFrom(names: seq<string>, answers: seq<Answer>, o: nat) returns (k: nat)
    requires |names| == |answers| && o < |Offers(names, answers)|
    ensures k < |names| && Offers(names, answers)[o].upstream == names[k]
    ensures Offers(names, answers)[o].tool in ListingOf(answers[k])
    decreases |names|
  {
    hide ListingOf;
    var n := |names| - 1;
    var front := Offers(names[..n], answers[..n]);
    if o < |front| {
      k := OfferComesFrom(names[..n], answers[..n], o);
    } else {
      k := n;
      OfferIsOf(names[n], ListingOf(answers[n]), o - |front|);
    }
  }

  lemma {:induction false} OfferIsOf(upstream: string, tools: seq<Tool>, o: nat)
    requires o < |OffersOf(upstream, tools)|
    ensures OffersOf(upstream, tools)[o].upstream == upstream && OffersOf(upstream, tools)[o].tool in tools
    decreases |tools|
  {
    hide ToolName;
    var n := |tools| - 1;
    if o < |OffersOf(upstream, tools[..n])| {
      OfferIsOf(upstream, tools[..n], o);
    }
  }

  /* ---- Through the gateway ---- */

  /** What the gateway makes of the policy adapter's answer. */
  function AnswerOf(answer: Option<PolicyDecision>): PolicyAnswer {
    match answer
    case Some(decision) => Decides(decision)
    case None => Unavailable
  }

  /** Conflicting grants fail closed in either mode, unless a guardrail body denies the
      call first, as an ordinary DENY. */
  lemma ConflictFailsClosed(cfg: Governed.Config, engine: Engine, inp: Input)
    requires Authorize(cfg, inp).result.Outcome?
    requires var call := Authorize(cfg, inp).result.call;
      && inp.policy == AnswerOf(Evaluate(engine, call))
      && call.rpcMethod == "tools/call" && !ConflictFree(call) && call.registration.value.status.Active?
    ensures var outcome := Authorize(cfg, inp).result;
      || (outcome.decision == PolicyDecision(Deny, FAIL_CLOSED) && !outcome.allowed && !outcome.shadowed)
      || (PolicyMeaning.SomeBodyFires(engine, outcome.call) && outcome.decision == PolicyDecision(Deny, EXCEEDED))
  {
    assert Authorize(cfg, inp).result.call.registration.Some?;
    hide Evaluate, SubjectFor, ConflictFree, StatusText;
    PolicyMeaning.ConflictIsNeverAllowed(engine, Authorize(cfg, inp).result.call);
  }

  /** An agent lists through the gateway and then calls a tool it was shown, its
      registration unchanged: the gateway never answers that the capability is not granted. */
  lemma ListedThenCalled(cfg: Governed.Config, engine: Engine, names: seq<string>, answers: seq<Answer>,
                         requestId: Json,
                         list: Input, call: Input, listing: Members, name: string)
    requires |names| == |answers|
    requires list.rpcMethod == "tools/list"
        && list.upstream == Responds(ListResponse(requestId, Merge(names, answers).tools))
    requires Execute(cfg, list).result == Response(listing) && Shows(ToolsOf(listing), name)
    requires call.rpcMethod == "tools/call" && call.toolName == Some(name) && call.lookup == list.lookup
    requires Authorize(cfg, call).result.Outcome?
    requires call.policy == AnswerOf(Evaluate(engine, Authorize(cfg, call).result.call))
    ensures var denied := Authorize(cfg, call).result.decision.reason; denied != NOT_GRANTED
    ensures Execute(cfg, call).result != PolicyViolation(NOT_GRANTED)
  {
    hide FilterListing, Merge, Surviving, ListResponse, Shows, SubjectFor, Evaluate, CredentialFor, GrantedNames,
         ToolsOf;
    var seen := Authorize(cfg, list).result.call;
    ListedThrough(cfg, list);
    FilteredListing(names, answers, requestId, seen);
    ResponseFields(requestId, Surviving(Merge(names, answers).tools, GrantedNames(seen)));
    var made := Authorize(cfg, call).result.call;
    ShownIsCallable(engine, names, answers, seen, name, made);
    OtherReasonsDiffer(call.lookup.value);
  }

  /** A listing that came back is the filtered upstream response. */
  lemma ListedThrough(cfg: Governed.Config, list: Input)
    requires Execute(cfg, list).result.Response? && list.upstream.Responds?
    ensures Authorize(cfg, list).result.Outcome?
    ensures var seen := Authorize(cfg, list).result.call;
      && FilterListing(list.upstream.response, seen) == Some(Execute(cfg, list).result.response)
      && seen.rpcMethod == list.rpcMethod
      && list.lookup.Some? && seen.registration == list.lookup.value
  {
    hide FilterListing, SubjectFor, CredentialFor;
  }

  lemma OtherReasonsDiffer(registration: Option<RegisteredAgent>)
    ensures NOT_REGISTERED != NOT_GRANTED && FAIL_CLOSED != NOT_GRANTED
    ensures registration.Some? ==>
      "Agent is " + StatusText(registration.value.status) + " in the Agent Registry" != NOT_GRANTED
  {
    NotGrantedStartsWithC();
    assert "Agent not registered in the Agent Registry"[0] == 'A';
    assert "Policy engine unavailable;"[0] == 'P';
    if registration.Some? {
      assert ("Agent is " + StatusText(registration.value.status) + " in the Agent Registry")[0] == 'A';
    }
  }
}

/**
 `RoutingMCPUpstream`: the merge of several upstreams' tool listings, which is
 also the routing table.
 */
module Routing {
  import opened Wrappers
  import opened CanonicalJson

  /** What the fan-out got from one upstream: a JSON-RPC response, or an exception. */
  datatype Answer = Answered(response: Members) | Failed

  /** A tool descriptor is a dictionary. */
  type Tool = Members

  /** `dict.get` */
  function Get(ms: Members, key: string): Option<Json> {
    match ms
    case NoMembers => None
    case Member(k, v, rest) => if k == key then Some(v) else Get(rest, key)
  }

  function Dictionaries(items: Items): seq<Tool> {
    match items
    case NoItems => []
    case Item(Obj(members), tail) => [members] + Dictionaries(tail)
    case Item(_, tail) => Dictionaries(tail)
  }

  /** `_tools_of`: any unexpected shape contributes nothing. */
  function ToolsOf(response: Members): seq<Tool> {
    match Get(response, "result")
    case Some(Obj(result)) =>
      (match Get(result, "tools")
       case Some(Arr(items)) => Dictionaries(items)
       case _ => [])
    case _ => []
  }

  function ToolName(tool: Tool): Option<string> {
    match Get(tool, "name")
    case Some(Str(name)) => Some(name)
    case _ => None
  }

  /* ---- The merge, over everything on offer ---- */

  /** One named tool of one upstream's listing. */
  datatype Offer = Offer(upstream: string, name: string, tool: Tool)

  function OffersOf(upstream: string, tools: seq<Tool>): seq<Offer>
    decreases |tools|
  {
    if tools == [] then []
    else
      var last := tools[|tools| - 1];
      OffersOf(upstream, tools[..|tools| - 1])
      + match ToolName(last)
        case Some(name) => [Offer(upstream, name, last)]
        case None => []
  }

  function ListingOf(answer: Answer): seq<Tool> {
    match answer
    case Answered(response) => ToolsOf(response)
    case Failed => []
  }

  /** All offers: upstreams in configured order, each in the order of its listing. */
  function Offers(names: seq<string>, answers: seq<Answer>): seq<Offer>
    requires |names| == |answers|
    decreases |names|
  {
    if names == [] then []
    else
      var n := |names| - 1;
      Offers(names[..n], answers[..n]) + OffersOf(names[n], ListingOf(answers[n]))
  }

  datatype Catalogue = Catalogue(tools: seq<Tool>, routes: map<string, string>)

  /** The first offer of each name. */
  function Keep(offers: seq<Offer>): Catalogue
    decreases |offers|
  {
    if offers == [] then Catalogue([], map[])
    else KeepOne(Keep(offers[..|offers| - 1]), offers[|offers| - 1])
  }

  function KeepOne(m: Catalogue, o: Offer): Catalogue {
    if o.name in m.routes then m else Catalogue(m.tools + [o.tool], m.routes[o.name := o.upstream])
  }

  function Merge(names: seq<string>, answers: seq<Answer>): Catalogue
    requires |names| == |answers|
  {
    Keep(Offers(names, answers))
  }

  predicate AllFailed(answers: seq<Answer>) {
    forall i :: 0 <= i < |answers| ==> answers[i].Failed?
  }

  /* ---- What the merge promises ---- */

  predicate IsFirstOffer(offers: seq<Offer>, k: nat) {
    k < |offers| && forall j :: 0 <= j < k ==> offers[j].name != offers[k].name
  }

  /** The index of the first offer of a name, or the number of offers. */
  function FirstIndex(offers: seq<Offer>, name: string): (k: nat)
    ensures k <= |offers|
    ensures k < |offers| ==> offers[k].name == name
    ensures forall j :: 0 <= j < k ==> offers[j].name != name
    decreases |offers|
  {
    if offers == [] then 0
    else
      var n := |offers| - 1;
      var k := FirstIndex(offers[..n], name);
      assert forall j :: 0 <= j < k ==> offers[j] == offers[..n][j];
      if k < n || offers[n].name == name then k else n + 1
  }

  /** The positions of the first offers. */
  function Firsts(offers: seq<Offer>): seq<nat>
    decreases |offers|
  {
    if offers == [] then []
    else
      var n := |offers| - 1;
      Firsts(offers[..n]) + if FirstIndex(offers[..n], offers[n].name) == n then [n] else []
  }

  /** The table routes exactly the offered names, each to the upstream of its first offer. */
  lemma {:induction false} RoutesAreFirstOffers(offers: seq<Offer>, name: string)
    ensures var k := FirstIndex(offers, name); var routes := Keep(offers).routes;
      && (name in routes <==> k < |offers|)
      && (name in routes ==> routes[name] == offers[k].upstream)
    decreases |offers|
  {
    if offers != [] {
      var n := |offers| - 1;
      RoutesAreFirstOffers(offers[..n], name);
      RoutesAreFirstOffers(offers[..n], offers[n].name);
    }
  }

  ghost predicate Increasing(positions: seq<nat>) {
    forall i, j :: 0 <= i < j < |positions| ==> positions[i] < positions[j]
  }

  lemma {:induction false} FirstsAreFirst(offers: seq<Offer>)
    ensures Increasing(Firsts(offers))
    ensures forall k :: k in Firsts(offers) ==> IsFirstOffer(offers, k)
    ensures forall k: nat :: IsFirstOffer(offers, k) ==> k in Firsts(offers)
    decreases |offers|
  {
    if offers != [] {
      var n := |offers| - 1;
      var front := offers[..n];
      FirstsAreFirst(front);
      forall k: nat | k < n
        ensures IsFirstOffer(front, k) <==> IsFirstOffer(offers, k)
      {
        assert forall j :: 0 <= j <= k ==> front[j] == offers[j];
      }
      assert forall j :: 0 <= j < n ==> front[j] == offers[j];
      assert IsFirstOffer(offers, n) <==> FirstIndex(front, offers[n].name) == n;
      forall i | 0 <= i < |Firsts(front)|
        ensures Firsts(front)[i] < n
      {
        assert Firsts(front)[i] in Firsts(front);
      }
    }
  }

  /** The merged listing is the first offer of each name, in order. */
  lemma {:induction false} ListingIsFirstOffers(offers: seq<Offer>)
    ensures var tools := Keep(offers).tools; var firsts := Firsts(offers);
      |tools| == |firsts|
      && forall i :: 0 <= i < |firsts| ==> firsts[i] < |offers| && tools[i] == offers[firsts[i]].tool
    decreases |offers|
  {
    if offers != [] {
      var n := |offers| - 1;
      ListingIsFirstOffers(offers[..n]);
      RoutesAreFirstOffers(offers[..n], offers[n].name);
    }
  }

  /* ---- In terms of upstreams ---- */

  predicate NamesTool(tools: seq<Tool>, name: string) {
    exists t :: 0 <= t < |tools| && ToolName(tools[t]) == Some(name)
  }

  /** An upstream advertises a name when its listing succeeded and names it. */
  predicate Advertises(answer: Answer, name: string) {
    NamesTool(ListingOf(answer), name)
  }

  /** The first upstream in configured order that advertises the name, or their number. */
  function FirstAdvertiser(answers: seq<Answer>, name: string): (i: nat)
    ensures i <= |answers|
    ensures i < |answers| ==> Advertises(answers[i], name)
    ensures forall j :: 0 <= j < i ==> !Advertises(answers[j], name)
    decreases |answers|
  {
    if answers == [] then 0
    else
      var n := |answers| - 1;
      var i := FirstAdvertiser(answers[..n], name);
      assert forall j :: 0 <= j < i ==> answers[j] == answers[..n][j];
      if i < n || Advertises(answers[n], name) then i else n + 1
  }

  lemma KeepThen(offers: seq<Offer>, o: Offer)
    ensures Keep(offers + [o]) == KeepOne(Keep(offers), o)
  {
    assert (offers + [o])[..|offers|] == offers;
  }

  lemma NamesToolLast(tools: seq<Tool>, name: string)
    requires tools != []
    ensures NamesTool(tools, name)
        <==> NamesTool(tools[..|tools| - 1], name) || ToolName(tools[|tools| - 1]) == Some(name)
  {
    hide ToolName;
    var front := tools[..|tools| - 1];
    assert forall t :: 0 <= t < |front| ==> front[t] == tools[t];
  }

  /** One more listing adds its new names, all routed to its upstream. */
  lemma {:induction false} KeepListing(offers: seq<Offer>, upstream: string, tools: seq<Tool>, name: string)
    ensures var before := Keep(offers).routes; var after := Keep(offers + OffersOf(upstream, tools)).routes;
      && (name in after <==> name in before || NamesTool(tools, name))
      && (name in before ==> after[name] == before[name])
      && (name !in before && name in after ==> after[name] == upstream)
    decreases |tools|
  {
    hide ToolName, Keep;
    if tools == [] {
      assert offers + OffersOf(upstream, tools) == offers;
    } else {
      var n := |tools| - 1;
      KeepListing(offers, upstream, tools[..n], name);
      NamesToolLast(tools, name);
      var front := offers + OffersOf(upstream, tools[..n]);
      if ToolName(tools[n]).Some? {
        var o := Offer(upstream, ToolName(tools[n]).value, tools[n]);
        KeepThen(front, o);
        assert offers + OffersOf(upstream, tools) == front + [o];
      } else {
        assert offers + OffersOf(upstream, tools) == front;
      }
    }
  }

  /** `routes[name]` is the first upstream in configured order whose successful
      listing names it; a name nobody advertises has no route. */
  lemma {:induction false} RoutedToFirstAdvertiser(names: seq<string>, answers: seq<Answer>, name: string)
    requires |names| == |answers|
    ensures var i := FirstAdvertiser(answers, name); var routes := Merge(names, answers).routes;
      && (name in routes <==> i < |answers|)
      && (name in routes ==> routes[name] == names[i])
    decreases |names|
  {
    hide Keep, Advertises;
    if names == [] {
      EmptyCatalogue();
    } else {
      var n := |names| - 1;
      RoutedToFirstAdvertiser(names[..n], answers[..n], name);
      KeepListing(Offers(names[..n], answers[..n]), names[n], ListingOf(answers[n]), name);
      AdvertisesIffNames(answers[n], name);
    }
  }

  lemma EmptyCatalogue()
    ensures Keep([]) == Catalogue([], map[])
  {
  }

  lemma AdvertisesIffNames(answer: Answer, name: string)
    ensures Advertises(answer, name) <==> NamesTool(ListingOf(answer), name)
  {
  }

  lemma {:induction false} OffersAreNamed(names: seq<string>, answers: seq<Answer>, k: nat)
    requires |names| == |answers| && k < |Offers(names, answers)|
    ensures ToolName(Offers(names, answers)[k].tool) == Some(Offers(names, answers)[k].name)
    decreases |names|
  {
    var n := |names| - 1;
    var front := Offers(names[..n], answers[..n]);
    if k < |front| {
      OffersAreNamed(names[..n], answers[..n], k);
    } else {
      OffersOfAreNamed(names[n], ListingOf(answers[n]), k - |front|);
    }
  }

  lemma {:induction false} OffersOfAreNamed(upstream: string, tools: seq<Tool>, k: nat)
    requires k < |OffersOf(upstream, tools)|
    ensures ToolName(OffersOf(upstream, tools)[k].tool) == Some(OffersOf(upstream, tools)[k].name)
    decreases |tools|
  {
    hide ToolName;
    var n := |tools| - 1;
    if k < |OffersOf(upstream, tools[..n])| {
      OffersOfAreNamed(upstream, tools[..n], k);
    }
  }

  /** Every listed tool is named and routed, to the upstream whose descriptor is
      listed; every routed name is listed, once. */
  lemma ListingMatchesRoutes(names: seq<string>, answers: seq<Answer>)
    requires |names| == |answers|
    ensures var m := Merge(names, answers); var offers := Offers(names, answers); var firsts := Firsts(offers);
      && |m.tools| == |firsts|
      && (forall i :: 0 <= i < |m.tools| ==>
            && firsts[i] < |offers|
            && m.tools[i] == offers[firsts[i]].tool
            && ToolName(m.tools[i]) == Some(offers[firsts[i]].name)
            && offers[firsts[i]].name in m.routes
            && m.routes[offers[firsts[i]].name] == offers[firsts[i]].upstream)
      && (forall i, j :: 0 <= i < j < |m.tools| ==> ToolName(m.tools[i]) != ToolName(m.tools[j]))
      && (forall name :: name in m.routes ==> exists i :: 0 <= i < |m.tools| && ToolName(m.tools[i]) == Some(name))
  {
    hide ToolName, Offers, Keep, Firsts, FirstIndex;
    var m, offers := Merge(names, answers), Offers(names, answers);
    var firsts := Firsts(offers);
    ListingIsFirstOffers(offers);
    FirstsAreFirst(offers);
    forall i | 0 <= i < |m.tools|
      ensures ToolName(m.tools[i]) == Some(offers[firsts[i]].name)
      ensures offers[firsts[i]].name in m.routes && m.routes[offers[firsts[i]].name] == offers[firsts[i]].upstream
    {
      OffersAreNamed(names, answers, firsts[i]);
      FirstOfferIsRouted(offers, firsts[i]);
    }
    forall i, j | 0 <= i < j < |m.tools|
      ensures ToolName(m.tools[i]) != ToolName(m.tools[j])
    {
      assert IsFirstOffer(offers, firsts[j]) && firsts[i] < firsts[j];
    }
    forall name | name in m.routes
      ensures exists i :: 0 <= i < |m.tools| && ToolName(m.tools[i]) == Some(name)
    {
      RoutesAreFirstOffers(offers, name);
      var k := FirstIndex(offers, name);
      assert IsFirstOffer(offers, k);
      var i :| 0 <= i < |firsts| && firsts[i] == k;
      assert ToolName(m.tools[i]) == Some(name);
    }
  }

  lemma FirstOfferIsRouted(offers: seq<Offer>, k: nat)
    requires IsFirstOffer(offers, k)
    ensures var routes := Keep(offers).routes; offers[k].name in routes && routes[offers[k].name] == offers[k].upstream
  {
    hide Keep;
    RoutesAreFirstOffers(offers, offers[k].name);
  }

  /* ---- The adapter ---- */

  datatype Route = To(upstream: string) | Nowhere | AllDown

  class RoutingMCPUpstream {
    const names: seq<string>          // configured order
    const cacheTtl: real
    var routes: map<string, string>
    var routesExpireAt: real

    constructor (names: seq<string>, cacheTtl: real)
      requires names != []
      ensures this.names == names && this.cacheTtl == cacheTtl && routes == map[] && routesExpireAt == 0.0
    {
      this.names, this.cacheTtl, routes, routesExpireAt := names, cacheTtl, map[], 0.0;
    }

    /** `_refresh`, from the moment the fan-out's answers are in; `None` is the
        UpstreamError that every upstream failed. */
    method Refresh(answers: seq<Answer>, now: real) returns (merged: Option<seq<Tool>>)
      requires |answers| == |names| && names != []
      modifies this
      ensures merged.None? <==> AllFailed(answers)
      ensures merged.None? ==> routes == old(routes) && routesExpireAt == old(routesExpireAt)
      ensures merged.Some? ==>
        Catalogue(merged.value, routes) == Merge(names, answers) && routesExpireAt == now + cacheTtl
    {
      var tools: seq<Tool>, table: map<string, string>, failures := [], map[], 0;
      EmptyCatalogue();
      hide Keep, Offers, ToolsOf;
      NoOffers(names, answers);
      for i := 0 to |names|
        invariant Catalogue(tools, table) == Keep(Offers(names[..i], answers[..i]))
        invariant failures <= i && (failures == i <==> AllFailed(answers[..i]))
        invariant routes == old(routes) && routesExpireAt == old(routesExpireAt)
      {
        ghost var before := Offers(names[..i], answers[..i]);
        OffersThen(names, answers, i);
        AllFailedStep(answers, i);
        match answers[i]
        case Failed =>
          failures := failures + 1;
          assert before + OffersOf(names[i], []) == before;
        case Answered(response) =>
          tools, table := MergeListing(names[i], ToolsOf(response), tools, table, before);
      }
      assert names[..|names|] == names && answers[..|answers|] == answers;
      if failures > 0 && failures == |names| {
        return None;
      }
      routes := table;
      routesExpireAt := now + cacheTtl;
      return Some(tools);
    }

    /** `_route_for`, when no other task runs during its await: `answers` is what a
        fan-out would get, `later` when they are in. */
    method RouteFor(tool: string, now: real, answers: seq<Answer>, later: real) returns (route: Route)
      requires |answers| == |names| && names != []
      modifies this
      ensures var hit := now < old(routesExpireAt) && tool in old(routes);
        && (hit ==> route == To(old(routes)[tool]))
        && (hit || AllFailed(answers) ==> routes == old(routes) && routesExpireAt == old(routesExpireAt))
        && (!hit && AllFailed(answers) ==> route == AllDown)
        && (!hit && !AllFailed(answers) ==>
              && routes == Merge(names, answers).routes && routesExpireAt == later + cacheTtl
              && var i := FirstAdvertiser(answers, tool); route == if i < |names| then To(names[i]) else Nowhere)
    {
      hide Keep, Offers, FirstAdvertiser, AllFailed;
      if now < routesExpireAt && tool in routes {
        return To(routes[tool]);
      }
      var merged := Refresh(answers, later);
      if merged.None? {
        return AllDown;
      }
      RouteAfterMerge(names, answers, routes, tool);
      return if tool in routes then To(routes[tool]) else Nowhere;
    }
  }

  lemma RouteAfterMerge(names: seq<string>, answers: seq<Answer>, routes: map<string, string>, tool: string)
    requires |names| == |answers| && routes == Merge(names, answers).routes
    ensures var i := FirstAdvertiser(answers, tool);
      (tool in routes <==> i < |answers|) && (tool in routes ==> routes[tool] == names[i])
  {
    hide Keep, Offers, FirstAdvertiser;
    RoutedToFirstAdvertiser(names, answers, tool);
  }

  lemma NoOffers(names: seq<string>, answers: seq<Answer>)
    ensures Offers(names[..0], answers[..0]) == []
  {
  }

  lemma OffersThen(names: seq<string>, answers: seq<Answer>, i: nat)
    requires |names| == |answers| && i < |names|
    ensures Offers(names[..i + 1], answers[..i + 1]) == Offers(names[..i], answers[..i])
        + OffersOf(names[i], ListingOf(answers[i]))
  {
    hide OffersOf;
    assert names[..i + 1][..i] == names[..i] && answers[..i + 1][..i] == answers[..i];
  }

  lemma AllFailedStep(answers: seq<Answer>, i: nat)
    requires i < |answers|
    ensures AllFailed(answers[..i + 1]) <==> AllFailed(answers[..i]) && answers[i].Failed?
  {
    assert forall j :: 0 <= j < i ==> answers[..i + 1][j] == answers[..i][j];
  }

  /** The inner loop: first upstream in configured order wins. */
  method MergeListing(upstream: string, listing: seq<Tool>, tools: seq<Tool>, table: map<string, string>,
                      ghost before: seq<Offer>)
    returns (merged: seq<Tool>, routes: map<string, string>)
    requires Catalogue(tools, table) == Keep(before)
    ensures Catalogue(merged, routes) == Keep(before + OffersOf(upstream, listing))
  {
    hide Keep, ToolName;
    merged, routes := tools, table;
    assert before + OffersOf(upstream, listing[..0]) == before;
    for j := 0 to |listing|
      invariant Catalogue(merged, routes) == Keep(before + OffersOf(upstream, listing[..j]))
    {
      ghost var offers := before + OffersOf(upstream, listing[..j]);
      assert listing[..j + 1][..j] == listing[..j];
      var name := ToolName(listing[j]);
      if name.Some? {
        ghost var o := Offer(upstream, name.value, listing[j]);
        KeepThen(offers, o);
        assert before + OffersOf(upstream, listing[..j + 1]) == offers + [o];
        if name.value !in routes {
          routes := routes[name.value := upstream];
          merged := merged + [listing[j]];
        }
      } else {
        assert before + OffersOf(upstream, listing[..j + 1]) == offers;
      }
    }
    assert listing[..|listing|] == listing;
  }
}

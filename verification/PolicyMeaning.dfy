/**
 What the Rego policy decides, proved from its rules: the decision table, that
 guardrails and grant terms only narrow, and where "narrows" is not what happens.
 */
module PolicyMeaning {
  import opened Wrappers
  import opened CanonicalJson
  import opened Receipts
  import opened Domain
  import opened Routing
  import opened Policy

  /* ---- Reading the input document ---- */

  lemma GetSkips(k: string, v: Json, rest: Members, key: string)
    ensures Get(Member(k, v, rest), key) == if k == key then Some(v) else Get(rest, key)
  {
  }

  lemma InputFields(call: ToolCallRequest)
    ensures var input := Defined(Project(call));
      && Ref(input, "method") == Defined(Str(call.rpcMethod))
      && Ref(input, "agent") == Defined(if call.registration.Some? then DumpAgent(call.registration.value) else Null)
      && Ref(input, "subject") == Defined(if call.subject.Some? then DumpSubject(call.subject.value) else Null)
      && Ref(input, "params") == Defined(ParamsOf(call))
      && Ref(input, "spiffe_id") == Defined(Str(call.agent.spiffeId))
  {
    hide DumpAgent, DumpSubject, ParamsOf;
    var m1 := Project(call).members;
    var m2 := m1.rest;
    var m3 := m2.rest;
    var m4 := m3.rest;
    TextsDiffer("method", "params", 0);
    GetSkips(m1.key, m1.value, m2, "spiffe_id");
    GetSkips(m2.key, m2.value, m3, "spiffe_id");
    GetSkips(m1.key, m1.value, m2, "agent");
    GetSkips(m2.key, m2.value, m3, "agent");
    GetSkips(m1.key, m1.value, m2, "subject");
    GetSkips(m2.key, m2.value, m3, "subject");
    GetSkips(m3.key, m3.value, m4, "subject");
    GetSkips(m1.key, m1.value, m2, "params");
    GetSkips(m2.key, m2.value, m3, "params");
    GetSkips(m3.key, m3.value, m4, "params");
    GetSkips(m4.key, m4.value, m4.rest, "params");
  }

  lemma ParamFields(call: ToolCallRequest)
    ensures Ref(Defined(ParamsOf(call)), "name") == Defined(OptionalText(call.toolName))
    ensures Ref(Defined(ParamsOf(call)), "arguments") == Defined(Obj(call.arguments))
  {
    var m := ParamsOf(call).members;
    GetSkips(m.key, m.value, m.rest, "arguments");
  }

  lemma AgentFields(a: RegisteredAgent)
    ensures Ref(Defined(DumpAgent(a)), "status") == Defined(Str(StatusText(a.status)))
    ensures Ref(Defined(DumpAgent(a)), "granted_tools") == Defined(Arr(DumpGrants(a.grantedTools)))
  {
    hide DumpGrants, DumpTimes, StatusText, RiskText;
    var m1 := DumpAgent(a).members;
    var m2 := m1.rest;
    var m3 := m2.rest;
    var m4 := m3.rest;
    var m5 := m4.rest;
    var m6 := m5.rest;
    GetSkips(m1.key, m1.value, m2, "status");
    GetSkips(m2.key, m2.value, m3, "status");
    GetSkips(m3.key, m3.value, m4, "status");
    GetSkips(m4.key, m4.value, m5, "status");
    GetSkips(m5.key, m5.value, m6, "status");
    GetSkips(m1.key, m1.value, m2, "granted_tools");
    GetSkips(m2.key, m2.value, m3, "granted_tools");
    GetSkips(m3.key, m3.value, m4, "granted_tools");
    GetSkips(m4.key, m4.value, m5, "granted_tools");
    GetSkips(m5.key, m5.value, m6, "granted_tools");
    GetSkips(m6.key, m6.value, m6.rest, "granted_tools");
  }

  lemma AgentFacts(a: RegisteredAgent)
    ensures Ref(Defined(DumpAgent(a)), "spiffe_id") == Defined(Str(a.spiffeId))
    ensures Ref(Defined(DumpAgent(a)), "display_name") == Defined(Str(a.displayName))
    ensures Ref(Defined(DumpAgent(a)), "purpose") == Defined(Str(a.purpose))
    ensures Ref(Defined(DumpAgent(a)), "owner") == Defined(Str(a.owner))
    ensures Ref(Defined(DumpAgent(a)), "risk_tier") == Defined(Str(RiskText(a.riskTier)))
  {
    hide DumpStatus, RiskText;
    var m1 := DumpAgent(a).members;
    var m2 := m1.rest;
    var m3 := m2.rest;
    var m4 := m3.rest;
    var m5 := m4.rest;
    GetSkips(m1.key, m1.value, m2, "display_name");
    GetSkips(m2.key, m2.value, m3, "display_name");
    GetSkips(m1.key, m1.value, m2, "purpose");
    GetSkips(m2.key, m2.value, m3, "purpose");
    GetSkips(m3.key, m3.value, m4, "purpose");
    GetSkips(m1.key, m1.value, m2, "owner");
    GetSkips(m2.key, m2.value, m3, "owner");
    GetSkips(m3.key, m3.value, m4, "owner");
    GetSkips(m4.key, m4.value, m5, "owner");
    GetSkips(m1.key, m1.value, m2, "risk_tier");
    GetSkips(m2.key, m2.value, m3, "risk_tier");
    GetSkips(m3.key, m3.value, m4, "risk_tier");
    GetSkips(m4.key, m4.value, m5, "risk_tier");
    GetSkips(m5.key, m5.value, m5.rest, "risk_tier");
  }

  lemma GrantFields(g: ToolGrant)
    ensures Ref(Defined(DumpGrant(g)), "name") == Defined(Str(g.name))
    ensures Ref(Defined(DumpGrant(g)), "approval_required") == Defined(Bool(g.approvalRequired))
    ensures Ref(Defined(DumpGrant(g)), "required_roles") == Defined(Arr(Texts(g.requiredRoles)))
  {
    hide Texts, RiskText;
    var m1 := DumpGrant(g).members;
    var m2 := m1.rest;
    var m3 := m2.rest;
    GetSkips(m1.key, m1.value, m2, "approval_required");
    GetSkips(m2.key, m2.value, m3, "approval_required");
    GetSkips(m1.key, m1.value, m2, "required_roles");
    GetSkips(m2.key, m2.value, m3, "required_roles");
    GetSkips(m3.key, m3.value, m3.rest, "required_roles");
  }

  lemma SubjectRoles(s: SubjectIdentity)
    ensures Ref(Defined(DumpSubject(s)), "roles") == Defined(Arr(Texts(s.roles)))
    ensures Ref(Defined(DumpSubject(s)), "id") == Defined(Str(s.subjectId))
    ensures Ref(Defined(DumpSubject(s)), "scopes") == Defined(Arr(Texts(s.scopes)))
  {
    hide Texts;
    var m := DumpSubject(s).members;
    GetSkips(m.key, m.value, m.rest, "scopes");
    GetSkips(m.rest.key, m.rest.value, m.rest.rest, "scopes");
    GetSkips(m.rest.rest.key, m.rest.rest.value, NoMembers, "scopes");
    GetSkips(m.key, m.value, m.rest, "roles");
  }

  lemma {:induction false} TextItems(ss: seq<string>)
    ensures |ItemsOf(Texts(ss))| == |ss|
    ensures forall i :: 0 <= i < |ss| ==> ItemsOf(Texts(ss))[i] == Str(ss[i])
    decreases |ss|
  {
    if ss != [] {
      TextItems(ss[1..]);
    }
  }

  lemma {:induction false} GrantItems(gs: seq<ToolGrant>)
    ensures |ItemsOf(DumpGrants(gs))| == |gs|
    ensures forall i :: 0 <= i < |gs| ==> ItemsOf(DumpGrants(gs))[i] == DumpGrant(gs[i])
    decreases |gs|
  {
    hide DumpGrant;
    if gs != [] {
      GrantItems(gs[1..]);
    }
  }

  lemma GrantListOf(call: ToolCallRequest)
    ensures var list := GrantList(Defined(Project(call)));
      if call.registration.None? then list == []
      else
        var gs := call.registration.value.grantedTools;
        |list| == |gs| && forall i :: 0 <= i < |gs| ==> list[i] == DumpGrant(gs[i])
  {
    hide Project, DumpAgent, DumpGrant, DumpGrants, DumpSubject, ParamsOf;
    InputFields(call);
    if call.registration.Some? {
      AgentFields(call.registration.value);
      GrantItems(call.registration.value.grantedTools);
    }
  }

  function ToolTerm(call: ToolCallRequest): Term {
    Defined(OptionalText(call.toolName))
  }

  lemma MatchesGrant(g: ToolGrant, call: ToolCallRequest)
    ensures Matches(DumpGrant(g), ToolTerm(call)) <==> Some(g.name) == call.toolName
  {
    hide DumpGrant;
    GrantFields(g);
  }

  lemma GrantedIff(call: ToolCallRequest)
    ensures Granted(Defined(Project(call)), ToolTerm(call)) <==> IsGranted(call)
  {
    hide Project, DumpGrant, Matches, GrantList;
    GrantListOf(call);
    if call.registration.Some? {
      var gs := call.registration.value.grantedTools;
      forall i | 0 <= i < |gs|
        ensures Matches(GrantList(Defined(Project(call)))[i], ToolTerm(call)) <==> Some(gs[i].name) == call.toolName
      {
        MatchesGrant(gs[i], call);
      }
    }
  }

  lemma {:induction false} FirstMatchIs(grants: seq<Json>, tool: Term, g: Json)
    requires forall i :: 0 <= i < |grants| && Matches(grants[i], tool) ==> grants[i] == g
    ensures FirstMatch(grants, tool)
      == if exists i :: 0 <= i < |grants| && Matches(grants[i], tool) then Defined(g) else Undefined
    decreases |grants|
  {
    hide Matches;
    if grants != [] {
      FirstMatchIs(grants[1..], tool, g);
      if !Matches(grants[0], tool) && exists i :: 0 <= i < |grants| && Matches(grants[i], tool) {
        var i :| 0 <= i < |grants| && Matches(grants[i], tool);
        assert grants[1..][i - 1] == grants[i];
      }
    }
  }

  lemma RiskTextsDiffer(a: RiskTier, b: RiskTier)
    ensures RiskText(a) == RiskText(b) <==> a == b
    ensures RiskText(Low) == "low" && RiskText(Medium) == "medium" && RiskText(High) == "high"
  {
    assert "low"[0] == 'l' && "medium"[0] == 'm' && "high"[0] == 'h';
  }

  lemma {:induction false} TextsDenote(ss: seq<string>, ts: seq<string>)
    ensures DenoteItems(Texts(ss)) == DenoteItems(Texts(ts)) <==> ss == ts
    decreases |ss|
  {
    if ss != [] && ts != [] {
      TextsDenote(ss[1..], ts[1..]);
      assert ss == [ss[0]] + ss[1..] && ts == [ts[0]] + ts[1..];
      var a, b := DenoteItems(Texts(ss)), DenoteItems(Texts(ts));
      TextsFirst(ss);
      TextsFirst(ts);
      assert a == [VStr(ss[0])] + DenoteItems(Texts(ss[1..])) && b == [VStr(ts[0])] + DenoteItems(Texts(ts[1..]));
      assert a[1..] == DenoteItems(Texts(ss[1..])) && b[1..] == DenoteItems(Texts(ts[1..]));
      assert a == b ==> a[0] == b[0];
    }
  }

  lemma TextsFirst(ss: seq<string>)
    requires ss != []
    ensures DenoteItems(Texts(ss)) == [VStr(ss[0])] + DenoteItems(Texts(ss[1..]))
  {
    assert Texts(ss) == Item(Str(ss[0]), Texts(ss[1..]));
    assert Denote(Str(ss[0])) == VStr(ss[0]);
  }

  function RiskValue(risk: Option<RiskTier>): Json {
    if risk.Some? then Str(RiskText(risk.value)) else Null
  }

  lemma GrantDenotes(g: ToolGrant)
    ensures Denote(DumpGrant(g)) == VObj(map[
      "name" := VStr(g.name),
      "risk_tier" := Denote(RiskValue(g.riskTier)),
      "approval_required" := VBool(g.approvalRequired),
      "required_roles" := VArr(DenoteItems(Texts(g.requiredRoles)))])
  {
    hide RiskText, Texts;
    var roles := Member("required_roles", Arr(Texts(g.requiredRoles)), NoMembers);
    var approval := Member("approval_required", Bool(g.approvalRequired), roles);
    var risk := Member("risk_tier", RiskValue(g.riskTier), approval);
    assert DumpGrant(g) == Obj(Member("name", Str(g.name), risk));
    assert DenoteMembers(roles) == map["required_roles" := VArr(DenoteItems(Texts(g.requiredRoles)))];
    assert DenoteMembers(approval) == DenoteMembers(roles)["approval_required" := VBool(g.approvalRequired)];
    assert DenoteMembers(risk) == DenoteMembers(approval)["risk_tier" := Denote(RiskValue(g.riskTier))];
    assert DenoteMembers(Member("name", Str(g.name), risk)) == DenoteMembers(risk)["name" := VStr(g.name)];
    GrantKeysDiffer();
  }

  lemma GrantKeysDiffer()
    ensures "name" != "risk_tier" && "name" != "approval_required" && "name" != "required_roles"
    ensures "risk_tier" != "approval_required" && "risk_tier" != "required_roles"
        && "approval_required" != "required_roles"
  {
    assert "name"[0] == 'n' && "approval_required"[0] == 'a';
    assert "risk_tier"[0] == 'r' && "risk_tier"[1] == 'i';
    assert "required_roles"[0] == 'r' && "required_roles"[1] == 'e';
  }

  /** Two grants differ as OPA values exactly when they differ. */
  lemma GrantsDenote(g: ToolGrant, h: ToolGrant)
    ensures Denote(DumpGrant(g)) == Denote(DumpGrant(h)) <==> g == h
  {
    hide DumpGrant, RiskText, Texts, Denote;
    GrantDenotes(g);
    GrantDenotes(h);
    GrantKeysDiffer();
    TextsDenote(g.requiredRoles, h.requiredRoles);
    RiskValuesDenote(g.riskTier, h.riskTier);
    var a, b := Denote(DumpGrant(g)).fields, Denote(DumpGrant(h)).fields;
    if a == b {
      assert a["name"] == b["name"] && a["risk_tier"] == b["risk_tier"];
      assert a["approval_required"] == b["approval_required"] && a["required_roles"] == b["required_roles"];
    }
  }

  lemma RiskValuesDenote(a: Option<RiskTier>, b: Option<RiskTier>)
    ensures Denote(RiskValue(a)) == Denote(RiskValue(b)) <==> a == b
  {
    if a.Some? && b.Some? {
      RiskTextsDiffer(a.value, b.value);
    }
  }

  /** `grant_for` has two results exactly when two differing grants carry the name. */
  lemma ConflictsIff(call: ToolCallRequest)
    ensures Conflicts(Defined(Project(call)), ToolTerm(call)) <==> !ConflictFree(call)
  {
    hide Project, DumpGrant, Matches, GrantList, Denote;
    GrantListOf(call);
    if call.registration.Some? {
      var gs, list := call.registration.value.grantedTools, GrantList(Defined(Project(call)));
      forall i | 0 <= i < |gs|
        ensures Matches(list[i], ToolTerm(call)) <==> Some(gs[i].name) == call.toolName
      {
        MatchesGrant(gs[i], call);
      }
      forall i, j | 0 <= i < |gs| && 0 <= j < |gs|
        ensures Denote(list[i]) == Denote(list[j]) <==> gs[i] == gs[j]
      {
        GrantsDenote(gs[i], gs[j]);
      }
      if !ConflictFree(call) {
        var i, j :| 0 <= i < |gs| && 0 <= j < |gs| && Some(gs[i].name) == call.toolName && gs[i].name == gs[j].name
          && gs[i] != gs[j];
        assert Matches(list[i], ToolTerm(call)) && Matches(list[j], ToolTerm(call))
          && Denote(list[i]) != Denote(list[j]);
      }
    }
  }

  /** The `k`-th grant is the first of the called name, or there is no other. */
  ghost predicate IsTheGrant(call: ToolCallRequest, k: nat)
    requires call.registration.Some?
  {
    var gs := call.registration.value.grantedTools;
    && k < |gs| && Some(gs[k].name) == call.toolName
    && (ConflictFree(call) || forall j :: 0 <= j < k ==> gs[j].name != gs[k].name)
  }

  lemma {:induction false} FirstMatchAt(grants: seq<Json>, tool: Term, k: nat)
    requires k < |grants| && Matches(grants[k], tool) && forall j :: 0 <= j < k ==> !Matches(grants[j], tool)
    ensures FirstMatch(grants, tool) == Defined(grants[k])
    decreases k
  {
    hide Matches;
    if k > 0 {
      FirstMatchAt(grants[1..], tool, k - 1);
    }
  }

  /** `grant_for` gives the first grant of that name; with no conflict, whichever one matches. */
  lemma GrantForIs(call: ToolCallRequest, k: nat)
    requires call.registration.Some? && IsTheGrant(call, k)
    ensures GrantFor(Defined(Project(call)), ToolTerm(call))
        == Defined(DumpGrant(call.registration.value.grantedTools[k]))
  {
    hide Project, DumpGrant, Matches, GrantList, FirstMatch;
    var gs := call.registration.value.grantedTools;
    var list := GrantList(Defined(Project(call)));
    GrantListOf(call);
    forall i | 0 <= i < |list|
      ensures Matches(list[i], ToolTerm(call)) <==> Some(gs[i].name) == call.toolName
    {
      MatchesGrant(gs[i], call);
    }
    assert Matches(list[k], ToolTerm(call));
    if ConflictFree(call) {
      FirstMatchIs(list, ToolTerm(call), DumpGrant(gs[k]));
    } else {
      FirstMatchAt(list, ToolTerm(call), k);
    }
  }

  lemma NoGrantFor(call: ToolCallRequest)
    requires !IsGranted(call)
    ensures GrantFor(Defined(Project(call)), ToolTerm(call)) == Undefined
  {
    hide Project, DumpGrant, Matches, GrantList, FirstMatch, IsGranted;
    GrantedIff(call);
    FirstMatchIs(GrantList(Defined(Project(call))), ToolTerm(call), Null);
  }

  lemma RolesMeet(required: seq<string>, actual: seq<string>)
    ensures HasAnyRole(Defined(Arr(Texts(required))), Defined(Arr(Texts(actual))))
            <==> exists r :: r in required && r in actual
  {
    hide Texts, ItemsOf;
    var a, b := Defined(Arr(Texts(required))), Defined(Arr(Texts(actual)));
    TextItems(required);
    TextItems(actual);
    forall i, j | 0 <= i < |required| && 0 <= j < |actual|
      ensures Denote(Elements(a)[i]) == Denote(Elements(b)[j]) <==> required[i] == actual[j]
    {
      StringsDenote(required[i], actual[j]);
    }
    assert |Elements(a)| == |required| && |Elements(b)| == |actual|;
    hide Denote, Elements;
    if HasAnyRole(a, b) {
      var i, j :| 0 <= i < |Elements(a)| && 0 <= j < |Elements(b)| && Denote(Elements(a)[i]) == Denote(Elements(b)[j]);
      assert required[i] in required && required[i] in actual;
    }
    if exists r :: r in required && r in actual {
      var r :| r in required && r in actual;
      var i :| 0 <= i < |required| && required[i] == r;
      var j :| 0 <= j < |actual| && actual[j] == r;
      assert Denote(Elements(a)[i]) == Denote(Elements(b)[j]);
    }
  }

  lemma StringsDenote(s: string, t: string)
    ensures Denote(Str(s)) == Denote(Str(t)) <==> s == t
  {
  }

  /** The two grant bodies fire exactly when the grant's terms are not met. */
  lemma GrantBodies(call: ToolCallRequest, k: nat)
    requires call.registration.Some? && IsTheGrant(call, k)
    ensures var input := Defined(Project(call)); var g := call.registration.value.grantedTools[k];
      DelegationBody(input, ToolTerm(call)) || RoleBody(input, ToolTerm(call)) <==> !TermsMet(g, call.subject)
  {
    hide Project, DumpGrant, DumpSubject, GrantFor, Texts, HasAnyRole;
    var g := call.registration.value.grantedTools[k];
    InputFields(call);
    GrantForIs(call, k);
    GrantFields(g);
    TextsEmpty(g.requiredRoles);
    if call.subject.Some? {
      SubjectIsNotNull(call.subject.value);
      SubjectRoles(call.subject.value);
      RolesMeet(g.requiredRoles, call.subject.value.roles);
    }
  }

  lemma TextsEmpty(ss: seq<string>)
    ensures Texts(ss) == NoItems <==> ss == []
  {
  }

  lemma SubjectIsNotNull(s: SubjectIdentity)
    ensures Denote(DumpSubject(s)) != VNull
  {
  }

  lemma ArgumentRef(call: ToolCallRequest)
    ensures Ref(Defined(Obj(call.arguments)), "credit_limit")
            == match Get(call.arguments, "credit_limit") case Some(v) => Defined(v) case None => Undefined
  {
  }

  lemma ThresholdIff(engine: Engine, call: ToolCallRequest)
    ensures ThresholdBody(engine, ToolTerm(call), Defined(Obj(call.arguments))) <==> Breaches(engine, call)
  {
    ArgumentRef(call);
  }

  lemma FirstOfName(gs: seq<ToolGrant>, k: nat) returns (first: nat)
    requires k < |gs|
    ensures first <= k && gs[first].name == gs[k].name
    ensures forall j :: 0 <= j < first ==> gs[j].name != gs[k].name
  {
    if j :| 0 <= j < k && gs[j].name == gs[k].name {
      first := FirstOfName(gs, j);
    } else {
      first := k;
    }
  }

  /** The terms of the first grant of the called name are not met. */
  predicate FirstGrantObjects(call: ToolCallRequest) {
    && call.registration.Some? && call.toolName.Some?
    && var gs := call.registration.value.grantedTools;
    exists k :: 0 <= k < |gs| && gs[k].name == call.toolName.value && !TermsMet(gs[k], call.subject)
                && forall j :: 0 <= j < k ==> gs[j].name != call.toolName.value
  }

  lemma FirstObjects(call: ToolCallRequest, first: nat)
    requires call.registration.Some? && first < |call.registration.value.grantedTools|
    requires var gs := call.registration.value.grantedTools;
      Some(gs[first].name) == call.toolName && forall j :: 0 <= j < first ==> gs[j].name != gs[first].name
    ensures FirstGrantObjects(call) <==> !TermsMet(call.registration.value.grantedTools[first], call.subject)
  {
    hide TermsMet;
  }

  /** Some guardrail body fires, of the conflicting grants the first one's. */
  predicate SomeBodyFires(engine: Engine, call: ToolCallRequest) {
    Breaches(engine, call) || Added(engine, call) || FirstGrantObjects(call)
  }

  /** `guardrail_violation` on the input document, whether or not grants conflict. */
  lemma BodiesFireIff(engine: Engine, call: ToolCallRequest)
    ensures GuardrailViolation(engine, Defined(Project(call)), ToolTerm(call), Defined(Obj(call.arguments)))
            <==> SomeBodyFires(engine, call)
  {
    hide Project, DelegationBody, RoleBody, TermsMet, ThresholdBody, Breaches;
    ThresholdIff(engine, call);
    if IsGranted(call) {
      var gs := call.registration.value.grantedTools;
      var k :| 0 <= k < |gs| && gs[k].name == call.toolName.value;
      var first := FirstOfName(gs, k);
      GrantBodies(call, first);
      FirstObjects(call, first);
    } else {
      NoBodies(call);
    }
  }

  /** When the grants agree, or some body fires, that is `Violates` on the call. */
  lemma ViolationIff(engine: Engine, call: ToolCallRequest)
    requires ConflictFree(call) || SomeBodyFires(engine, call)
    ensures GuardrailViolation(engine, Defined(Project(call)), ToolTerm(call), Defined(Obj(call.arguments)))
            <==> Violates(engine, call)
  {
    hide Project, GuardrailViolation, TermsMet, Breaches;
    BodiesFireIff(engine, call);
    if ConflictFree(call) && IsGranted(call) {
      var gs := call.registration.value.grantedTools;
      var k :| 0 <= k < |gs| && gs[k].name == call.toolName.value;
      var first := FirstOfName(gs, k);
      FirstObjects(call, first);
      hide FirstGrantObjects;
      assert forall i :: 0 <= i < |gs| && gs[i].name == call.toolName.value ==> gs[i] == gs[first];
    }
  }

  lemma NoBodies(call: ToolCallRequest)
    requires !IsGranted(call)
    ensures !DelegationBody(Defined(Project(call)), ToolTerm(call)) && !RoleBody(Defined(Project(call)), ToolTerm(call))
  {
    hide Project, GrantFor, IsGranted;
    NoGrantFor(call);
  }

  lemma StatusIsActive(a: RegisteredAgent)
    ensures Equals(Defined(Str(StatusText(a.status))), Defined(Str("active"))) <==> a.status.Active?
  {
  }

  lemma MethodsDiffer()
    ensures "tools/list" != "tools/call"
  {
    TextsDiffer("tools/list", "tools/call", 6);
  }

  lemma ConflictIsGranted(call: ToolCallRequest)
    ensures !ConflictFree(call) ==> IsGranted(call)
  {
  }

  /** The query fails exactly for a call under conflicting grants, unless a guardrail
      body that fires ends the evaluation first. */
  lemma FailsIff(engine: Engine, call: ToolCallRequest)
    ensures Fails(engine, Defined(Project(call)))
      <==> && call.rpcMethod == "tools/call" && !ConflictFree(call)
           && !(engine.stopsEarly(Project(call)) && SomeBodyFires(engine, call))
  {
    hide Project, ParamsOf, Granted, Conflicts, GuardrailViolation, SomeBodyFires, IsGranted, ConflictFree;
    InputFields(call);
    ParamFields(call);
    GrantedIff(call);
    ConflictIsGranted(call);
    ConflictsIff(call);
    BodiesFireIff(engine, call);
  }

  /** Whenever the query answers, `allow` holds for a call exactly when the call is a
      listing, or an active agent's call of a tool it was granted that breaks no guardrail. */
  lemma AllowRuleIff(engine: Engine, call: ToolCallRequest)
    requires !Fails(engine, Defined(Project(call)))
    ensures AllowRule(engine, Defined(Project(call))) <==> Permits(engine, call)
  {
    hide Project, DumpAgent, DumpSubject, ParamsOf, Granted, GuardrailViolation, Violates, IsGranted, StatusText, Fails,
         SomeBodyFires, ConflictFree;
    FailsIff(engine, call);
    InputFields(call);
    ParamFields(call);
    GrantedIff(call);
    if call.rpcMethod == "tools/call" {
      ViolationIff(engine, call);
    }
    if call.registration.Some? {
      AgentFields(call.registration.value);
      StatusIsActive(call.registration.value);
    }
  }

  lemma ReasonsIff(engine: Engine, call: ToolCallRequest)
    requires !Fails(engine, Defined(Project(call)))
    ensures ReasonNotGranted(Defined(Project(call))) <==> call.rpcMethod == "tools/call" && !IsGranted(call)
    ensures ReasonExceeded(engine, Defined(Project(call)))
            <==> call.rpcMethod == "tools/call" && IsGranted(call) && Violates(engine, call)
  {
    hide Project, DumpAgent, DumpSubject, ParamsOf, Granted, GuardrailViolation, Violates, IsGranted, Fails,
         SomeBodyFires, ConflictFree;
    FailsIff(engine, call);
    InputFields(call);
    ParamFields(call);
    GrantedIff(call);
    if call.rpcMethod == "tools/call" {
      ViolationIff(engine, call);
    }
  }

  /** The two `reason` rules never both fire, on any input at all. */
  lemma OneReason(engine: Engine, input: Term)
    ensures !(ReasonNotGranted(input) && ReasonExceeded(engine, input))
  {
  }

  /** The whole decision table the gateway sees, for every call. */
  lemma DecisionTable(engine: Engine, call: ToolCallRequest)
    ensures Evaluate(engine, call)
      == if call.rpcMethod == "tools/list" then Some(PolicyDecision(Decision.Allow, ""))
         else if call.rpcMethod != "tools/call" then Some(PolicyDecision(Deny, "Denied by policy"))
         else if !IsGranted(call) then Some(PolicyDecision(Deny, NOT_GRANTED))
         else if !ConflictFree(call) && !(engine.stopsEarly(Project(call)) && SomeBodyFires(engine, call)) then None
         else if Violates(engine, call) then Some(PolicyDecision(Deny, EXCEEDED))
         else if call.registration.value.status.Active? then Some(PolicyDecision(Decision.Allow, ""))
         else Some(PolicyDecision(Deny, "Denied by policy"))
  {
    hide Project, AllowRule, ReasonNotGranted, ReasonExceeded, Violates, Fails, SomeBodyFires, ConflictFree;
    MethodsDiffer();
    FailsIff(engine, call);
    ConflictIsGranted(call);
    if !Fails(engine, Defined(Project(call))) {
      AllowRuleIff(engine, call);
      ReasonsIff(engine, call);
    }
  }

  /** So a call is allowed exactly when it is permitted and its grants do not conflict. */
  lemma AllowIff(engine: Engine, call: ToolCallRequest)
    ensures Allows(engine, call)
      <==> Permits(engine, call) && (call.rpcMethod == "tools/list" || ConflictFree(call))
  {
    hide Evaluate, ConflictFree, Project;
    MethodsDiffer();
    DecisionTable(engine, call);
  }

  /** No operator-added guardrails: the policy as shipped. */
  ghost predicate AsShipped(engine: Engine) {
    forall input, tool, args :: !engine.added(input, tool, args)
  }

  /** The shipped threshold. For a granted, unconflicted call of the account tool by an
      active agent whose grants' terms are met: a numeric credit limit is allowed up to
      10000 and no further. */
  lemma ThresholdDecides(engine: Engine, call: ToolCallRequest, text: string)
    requires AsShipped(engine) && AccountCallInOrder(call)
    requires Get(call.arguments, "credit_limit") == Some(Number(text))
    ensures Allows(engine, call) <==> engine.numeric(text) <= 10000.0
    ensures !Allows(engine, call) ==> Evaluate(engine, call) == Some(PolicyDecision(Deny, EXCEEDED))
  {
    hide Evaluate, ConflictFree, Project, Get, TermsMet;
    MethodsDiffer();
    DecisionTable(engine, call);
  }

  /** An absent, null or boolean credit limit never breaches it; by OPA's order over
      values, a string, an array or an object always does. */
  lemma ThresholdOnOtherValues(engine: Engine, call: ToolCallRequest)
    requires AsShipped(engine) && AccountCallInOrder(call)
    ensures var limit := Get(call.arguments, "credit_limit");
      && (limit.None? || limit.value.Null? || limit.value.Bool? ==> Allows(engine, call))
      && (limit.Some? && (limit.value.Str? || limit.value.Arr? || limit.value.Obj?) ==>
            Evaluate(engine, call) == Some(PolicyDecision(Deny, EXCEEDED)))
  {
    hide Evaluate, ConflictFree, Project, Get, TermsMet;
    MethodsDiffer();
    DecisionTable(engine, call);
  }

  /** Everything but the arguments is in order. */
  ghost predicate AccountCallInOrder(call: ToolCallRequest) {
    && call.rpcMethod == "tools/call" && call.toolName == Some("salesforce_update_account")
    && call.registration.Some? && call.registration.value.status.Active?
    && IsGranted(call) && ConflictFree(call)
    && forall g :: g in call.registration.value.grantedTools && Some(g.name) == call.toolName ==>
        TermsMet(g, call.subject)
  }

  /** Under conflicting grants a call is never allowed: the query fails, or a
      guardrail body denies it first. */
  lemma ConflictIsNeverAllowed(engine: Engine, call: ToolCallRequest)
    requires call.rpcMethod == "tools/call" && !ConflictFree(call)
    ensures Evaluate(engine, call) == None
      || (SomeBodyFires(engine, call) && Evaluate(engine, call) == Some(PolicyDecision(Deny, EXCEEDED)))
  {
    hide Evaluate, ConflictFree, Project, Breaches;
    MethodsDiffer();
    ConflictIsGranted(call);
    DecisionTable(engine, call);
  }

  /* ---- Guardrails only narrow ---- */

  /** Every guardrail of `e` is one of `f` too. */
  ghost predicate AddsGuardrails(e: Engine, f: Engine) {
    e.numeric == f.numeric && forall input, tool, args :: e.added(input, tool, args) ==> f.added(input, tool, args)
  }

  /** On any input document: added guardrail bodies never make `allow` hold. */
  lemma AddedBodiesOnlyDeny(e: Engine, f: Engine, input: Term)
    requires AddsGuardrails(e, f) && AllowRule(f, input)
    ensures AllowRule(e, input)
  {
    hide DelegationBody, RoleBody, Granted;
  }

  /** An added guardrail never turns a refusal, or a failing query, into an allow. */
  lemma GuardrailsOnlyNarrow(e: Engine, f: Engine, call: ToolCallRequest)
    requires AddsGuardrails(e, f) && Allows(f, call)
    ensures Allows(e, call)
  {
    hide Allows, ConflictFree, TermsMet;
    AllowIff(e, call);
    AllowIff(f, call);
  }

  /** One grant's terms are at least as strict as another's, for every human or none. */
  ghost predicate Stricter(g: ToolGrant, h: ToolGrant) {
    forall subject :: TermsMet(h, subject) ==> TermsMet(g, subject)
  }

  function Human(roles: seq<string>): Option<SubjectIdentity> {
    Some(SubjectIdentity("", roles, [], None))
  }

  /** Exactly which edits of a grant's terms are at least as strict: asking for
      approval or for roles where none were asked, or dropping roles from a list that
      stays non-empty. */
  lemma StricterIff(g: ToolGrant, h: ToolGrant)
    ensures Stricter(g, h) <==>
      && (g.approvalRequired || g.requiredRoles != [] ==> h.approvalRequired || h.requiredRoles != [])
      && (g.requiredRoles != [] ==> h.requiredRoles != [] && forall r :: r in h.requiredRoles ==> r in g.requiredRoles)
  {
    if Stricter(g, h) {
      assert TermsMet(h, None) ==> TermsMet(g, None);
      assert TermsMet(h, Human([])) ==> TermsMet(g, Human([]));
      forall r | r in h.requiredRoles && g.requiredRoles != []
        ensures r in g.requiredRoles
      {
        assert r in Human([r]).value.roles && TermsMet(h, Human([r]));
        assert TermsMet(g, Human([r]));
      }
    }
  }

  /** The call, its agent granted these tools instead. */
  function Granting(call: ToolCallRequest, gs: seq<ToolGrant>): ToolCallRequest {
    if call.registration.None? then call
    else call.(registration := Some(call.registration.value.(grantedTools := gs)))
  }

  /** No call denied, or failing, under grant `g` is allowed under `h`. */
  ghost predicate Narrows(engine: Engine, g: ToolGrant, h: ToolGrant) {
    forall call :: Allows(engine, Granting(call, [h])) ==> Allows(engine, Granting(call, [g]))
  }

  /** A call of the tool by an active agent, with no arguments. */
  function PlainCall(tool: string, subject: Option<SubjectIdentity>): ToolCallRequest {
    var epoch: Timestamp := DateTime(1970, 1, 1, 0, 0, 0, 0, Utc);
    var agent := RegisteredAgent("", "", "", "", Low, Active, [], epoch, epoch, None);
    ToolCallRequest("tools/call", Some(tool), NoMembers, AgentIdentity("", None, None), Some(agent), subject)
  }

  /** Under one grant of the shipped policy, that call is allowed exactly when the
      acting human, if any, meets the grant's terms. */
  lemma PlainCallIff(engine: Engine, g: ToolGrant, subject: Option<SubjectIdentity>)
    requires AsShipped(engine)
    ensures Allows(engine, Granting(PlainCall(g.name, subject), [g])) <==> TermsMet(g, subject)
  {
    hide Allows, TermsMet, Project;
    var call := Granting(PlainCall(g.name, subject), [g]);
    assert call.registration.value.grantedTools[0] == g;
    assert IsGranted(call) && ConflictFree(call);
    assert !Breaches(engine, call) && !Added(engine, call);
    MethodsDiffer();
    AllowIff(engine, call);
  }

  /** In the shipped policy, replacing a grant by another of its name narrows what is
      allowed exactly when the new terms are at least as strict. */
  lemma NarrowsIff(engine: Engine, g: ToolGrant, h: ToolGrant)
    requires AsShipped(engine) && g.name == h.name
    ensures Narrows(engine, g, h) <==> Stricter(g, h)
  {
    hide Allows, TermsMet;
    if Stricter(g, h) {
      forall call | Allows(engine, Granting(call, [h]))
        ensures Allows(engine, Granting(call, [g]))
      {
        OneGrantNarrows(engine, call, g, h);
      }
    } else {
      var subject :| TermsMet(h, subject) && !TermsMet(g, subject);
      PlainCallIff(engine, g, subject);
      PlainCallIff(engine, h, subject);
      assert Allows(engine, Granting(PlainCall(g.name, subject), [h]));
    }
  }

  lemma OneGrantNarrows(engine: Engine, call: ToolCallRequest, g: ToolGrant, h: ToolGrant)
    requires AsShipped(engine) && g.name == h.name && Stricter(g, h)
    requires Allows(engine, Granting(call, [h]))
    ensures Allows(engine, Granting(call, [g]))
  {
    hide Allows, TermsMet, Project;
    if call.registration.Some? {
      var before := Granting(call, [g]);
      assert Granting(before, [h]) == Granting(call, [h]);
      assert ConflictFree(before);
      StricterGrantsOnlyNarrow(engine, before, [h]);
    }
  }

  /** So adding a role to a non-empty `required_roles`, an any-of list, widens: some
      call the policy denies under the grant it allows once the role is added. */
  lemma AddedRoleWidens(engine: Engine, g: ToolGrant, role: string) returns (call: ToolCallRequest)
    requires AsShipped(engine) && g.requiredRoles != [] && role !in g.requiredRoles
    ensures var h := g.(requiredRoles := g.requiredRoles + [role]);
      && !Allows(engine, Granting(call, [g])) && Allows(engine, Granting(call, [h]))
      && !Narrows(engine, g, h)
  {
    hide Allows;
    var h := g.(requiredRoles := g.requiredRoles + [role]);
    assert role in h.requiredRoles && role in Human([role]).value.roles;
    call := PlainCall(g.name, Human([role]));
    PlainCallIff(engine, g, Human([role]));
    PlainCallIff(engine, h, Human([role]));
  }

  /** Replacing grants by stricter ones of the same names never allows more, except
      that it can resolve a conflict: what is then allowed was allowed before exactly
      when the old grants did not conflict. */
  lemma StricterGrantsOnlyNarrow(engine: Engine, call: ToolCallRequest, gs: seq<ToolGrant>)
    requires call.registration.Some?
    requires var before := call.registration.value.grantedTools;
      && |gs| == |before|
      && forall i :: 0 <= i < |gs| ==> gs[i].name == before[i].name && Stricter(before[i], gs[i])
    requires Allows(engine, Granting(call, gs))
    requires Added(engine, call) ==> Added(engine, Granting(call, gs))
    ensures Allows(engine, call) <==> call.rpcMethod == "tools/list" || ConflictFree(call)
  {
    hide Allows, Added, Breaches, TermsMet, ConflictFree;
    AllowIff(engine, call);
    AllowIff(engine, Granting(call, gs));
    StricterGrantsPermitLess(engine, call, gs);
  }

  lemma StricterGrantsPermitLess(engine: Engine, call: ToolCallRequest, gs: seq<ToolGrant>)
    requires call.registration.Some?
    requires var before := call.registration.value.grantedTools;
      && |gs| == |before|
      && forall i :: 0 <= i < |gs| ==> gs[i].name == before[i].name && Stricter(before[i], gs[i])
    requires Permits(engine, Granting(call, gs))
    requires Added(engine, call) ==> Added(engine, Granting(call, gs))
    ensures Permits(engine, call)
  {
    hide Breaches, Added, TermsMet;
    var narrowed := Granting(call, gs);
    var before := call.registration.value.grantedTools;
    if call.rpcMethod != "tools/list" {
      BreachesSame(engine, call, narrowed);
      var k :| 0 <= k < |gs| && gs[k].name == call.toolName.value;
      assert before[k].name == call.toolName.value;
      forall i | 0 <= i < |before| && before[i].name == call.toolName.value
        ensures TermsMet(before[i], call.subject)
      {
        assert gs[i].name == call.toolName.value;
        assert TermsMet(gs[i], call.subject);
      }
    }
  }

  lemma BreachesSame(engine: Engine, a: ToolCallRequest, b: ToolCallRequest)
    requires a.toolName == b.toolName && a.arguments == b.arguments
    ensures Breaches(engine, a) <==> Breaches(engine, b)
  {
    hide Exceeds;
  }

  /** The call, its human holding these roles instead. */
  function Holding(call: ToolCallRequest, roles: seq<string>): ToolCallRequest {
    if call.subject.None? then call else call.(subject := Some(call.subject.value.(roles := roles)))
  }

  /** More roles on the acting human never lose an allowed call. */
  lemma MonotoneInRoles(engine: Engine, call: ToolCallRequest, roles: seq<string>)
    requires call.subject.Some? && (forall r :: r in call.subject.value.roles ==> r in roles)
    requires Allows(engine, call)
    requires Added(engine, Holding(call, roles)) ==> Added(engine, call)
    ensures Allows(engine, Holding(call, roles))
  {
    hide Allows, Added, Breaches, TermsMet;
    AllowIff(engine, call);
    AllowIff(engine, Holding(call, roles));
    MoreRolesPermitMore(engine, call, roles);
    assert ConflictFree(call) ==> ConflictFree(Holding(call, roles));
  }

  lemma MoreRolesPermitMore(engine: Engine, call: ToolCallRequest, roles: seq<string>)
    requires call.subject.Some? && (forall r :: r in call.subject.value.roles ==> r in roles)
    requires Permits(engine, call)
    requires Added(engine, Holding(call, roles)) ==> Added(engine, call)
    ensures Permits(engine, Holding(call, roles))
  {
    hide Breaches, Added;
    var richer := Holding(call, roles);
    BreachesSame(engine, call, richer);
    if call.rpcMethod != "tools/list" {
      var gs := call.registration.value.grantedTools;
      var k :| 0 <= k < |gs| && gs[k].name == call.toolName.value;
      forall i | 0 <= i < |gs| && gs[i].name == call.toolName.value
        ensures TermsMet(gs[i], richer.subject)
      {
        assert TermsMet(gs[i], call.subject);
        if gs[i].requiredRoles != [] {
          var r :| r in gs[i].requiredRoles && r in call.subject.value.roles;
          assert r in richer.subject.value.roles;
        }
      }
    }
  }
}

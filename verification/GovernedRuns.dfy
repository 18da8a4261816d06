/**
 Whole runs of the gateway: any interleaving of any number of calls over one
 log, and the same calls under enforcement and under observation.
 */
module GovernedRuns {
  import opened Wrappers
  import opened Receipts
  import opened Domain
  import opened Governed

  /* ---- The shape of one call's effects ---- */

  /** A receipt under which the call may go ahead. */
  predicate Permitting(e: Effect) {
    e.Receipted? && (e.decision.decision == Allow || !e.enforced)
  }

  /** Receipt, export, perhaps an exchange, then the forward; or a beginning of that. */
  ghost predicate WellShaped(effects: seq<Effect>) {
    && (forall p :: 0 <= p < |effects| ==> (effects[p].Receipted? <==> p == 0))
    && (forall p :: 0 <= p < |effects| && effects[p].Sent? ==>
          p > 1 && Permitting(effects[0]) && effects[0].call == effects[p].sent && p == |effects| - 1)
  }

  lemma ExecuteIsWellShaped(cfg: Config, inp: Input)
    ensures WellShaped(Execute(cfg, inp).effects)
  {
    hide Judge, SubjectFor, CredentialFor, FilterListing;
  }

  /* ---- Interleavings ---- */

  /** The effects of one call, in log order. */
  function Project(log: seq<Logged>, id: nat): seq<Effect>
    decreases |log|
  {
    if log == [] then []
    else
      var last := log[|log| - 1];
      Project(log[..|log| - 1], id) + if last.id == id then [last.effect] else []
  }

  /** A log of calls that interleave anyhow and may be still under way: each call
      has performed its own effects in order, up to some point. */
  ghost predicate Interleaves(cfg: Config, calls: map<nat, Input>, log: seq<Logged>) {
    && (forall i :: 0 <= i < |log| ==> log[i].id in calls)
    && (forall id :: id in calls ==> Project(log, id) <= Execute(cfg, calls[id]).effects)
  }

  lemma ProjectThen(log: seq<Logged>, id: nat, effect: Effect, other: nat)
    ensures Project(log + [Logged(id, effect)], other) == Project(log, other) + (if other == id then [effect] else [])
  {
    assert (log + [Logged(id, effect)])[..|log|] == log;
    assert Project(log, other) + [] == Project(log, other);
  }

  /** A call may perform its next effect at any time. */
  lemma InterleavesThen(cfg: Config, calls: map<nat, Input>, log: seq<Logged>, id: nat, effect: Effect)
    requires Interleaves(cfg, calls, log) && id in calls
    requires Project(log, id) + [effect] <= Execute(cfg, calls[id]).effects
    ensures Interleaves(cfg, calls, log + [Logged(id, effect)])
  {
    hide Execute, Project;
    var longer := log + [Logged(id, effect)];
    forall other | other in calls
      ensures Project(longer, other) <= Execute(cfg, calls[other]).effects
    {
      ProjectThen(log, id, effect, other);
    }
  }

  lemma {:induction false} ProjectPrefix(log: seq<Logged>, i: nat, id: nat)
    requires i <= |log|
    ensures Project(log[..i], id) <= Project(log, id)
    decreases |log|
  {
    if i < |log| {
      ProjectPrefix(log[..|log| - 1], i, id);
      assert log[..|log| - 1][..i] == log[..i];
    } else {
      assert log[..i] == log;
    }
  }

  /** The place of a logged effect among its call's effects. */
  lemma PlaceOf(log: seq<Logged>, i: nat)
    requires i < |log|
    ensures var p := |Project(log[..i], log[i].id)|;
      p < |Project(log, log[i].id)| && Project(log, log[i].id)[p] == log[i].effect
  {
    ProjectPrefix(log, i + 1, log[i].id);
    assert log[..i + 1][..i] == log[..i];
  }

  lemma {:induction false} FirstOf(log: seq<Logged>, id: nat) returns (j: nat)
    requires Project(log, id) != []
    ensures j < |log| && log[j].id == id && Project(log[..j], id) == []
    decreases |log|
  {
    var n := |log| - 1;
    if Project(log[..n], id) == [] {
      j := n;
    } else {
      j := FirstOf(log[..n], id);
      assert log[..n][..j] == log[..j];
    }
  }

  /** In every interleaving, a forward comes after that call's own receipt, its
      only one, reading ALLOW or an unenforced DENY. */
  lemma ForwardFollowsOwnReceipt(cfg: Config, calls: map<nat, Input>, log: seq<Logged>, i: nat) returns (j: nat)
    requires Interleaves(cfg, calls, log) && i < |log| && log[i].effect.Sent?
    ensures j < i && log[j].id == log[i].id && Permitting(log[j].effect)
    ensures log[j].effect.call == log[i].effect.sent
    ensures forall k :: 0 <= k < |log| && log[k].id == log[i].id && log[k].effect.Receipted? ==> k == j
  {
    hide Execute;
    var id := log[i].id;
    var effects := Execute(cfg, calls[id]).effects;
    ExecuteIsWellShaped(cfg, calls[id]);
    PlaceOf(log, i);
    assert Project(log[..i], id) != [];
    j := FirstOf(log[..i], id);
    assert log[..i][..j] == log[..j];
    PlaceOf(log, j);
    forall k | 0 <= k < |log| && log[k].id == id && log[k].effect.Receipted?
      ensures k == j
    {
      PlaceOf(log, k);
      assert Project(log[..k], id) == [];
      OnlyFirst(log, j, k);
    }
  }

  lemma OnlyFirst(log: seq<Logged>, j: nat, k: nat)
    requires j < |log| && k < |log| && log[j].id == log[k].id
    requires Project(log[..j], log[j].id) == [] && Project(log[..k], log[j].id) == []
    ensures j == k
  {
    NotFirst(log, j, k);
    NotFirst(log, k, j);
  }

  lemma NotFirst(log: seq<Logged>, j: nat, k: nat)
    requires j < |log| && k < |log|
    ensures j < k ==> Project(log[..k], log[j].id) != []
  {
    if j < k {
      PlaceOf(log[..k], j);
    }
  }

  /* ---- Which calls are receipted, and how ---- */

  /** Identity, lookup and subject checks passed, and no port crashed. */
  predicate PassesGates(cfg: Config, inp: Input) {
    && inp.identity.Some? && inp.lookup.Some?
    && SubjectFor(cfg, inp, inp.identity.value).Some?
    && Judge(inp, inp.lookup.value).Judged?
    && inp.recorded
  }

  function ReceiptsIn(effects: seq<Effect>): seq<Effect>
    decreases |effects|
  {
    if effects == [] then []
    else
      var last := effects[|effects| - 1];
      ReceiptsIn(effects[..|effects| - 1]) + if last.Receipted? then [last] else []
  }

  lemma {:induction false} ReceiptsThen(a: seq<Effect>, b: seq<Effect>)
    ensures ReceiptsIn(a + b) == ReceiptsIn(a) + ReceiptsIn(b)
    decreases |b|
  {
    if b == [] {
      assert a + b == a;
    } else {
      var n := |b| - 1;
      ReceiptsThen(a, b[..n]);
      assert (a + b)[..|a + b| - 1] == a + b[..n];
    }
  }

  /** What `record` is asked to receipt for the call. */
  function ReceiptFor(cfg: Config, inp: Input): Effect
    requires PassesGates(cfg, inp)
  {
    var agent, registration := inp.identity.value, inp.lookup.value;
    var judged := Judge(inp, registration);
    var subject := SubjectFor(cfg, inp, agent).value;
    var call := ToolCallRequest(inp.rpcMethod, inp.toolName, inp.arguments, agent, registration, subject);
    Receipted(call, judged.decision, !(judged.shadowable && cfg.mode.Observe? && judged.decision.decision != Allow))
  }

  /** Each call that passes the gates is receipted exactly once; no other is. */
  lemma ReceiptedOnce(cfg: Config, inp: Input)
    ensures ReceiptsIn(Execute(cfg, inp).effects) == if PassesGates(cfg, inp) then [ReceiptFor(cfg, inp)] else []
  {
    hide Judge, SubjectFor, CredentialFor, FilterListing;
    var effects := Execute(cfg, inp).effects;
    ExecuteIsWellShaped(cfg, inp);
    OnlyHeadIsReceipt(effects);
    hide ReceiptsIn, WellShaped;
  }

  lemma {:induction false} OnlyHeadIsReceipt(effects: seq<Effect>)
    requires WellShaped(effects)
    ensures ReceiptsIn(effects) == if effects == [] then [] else [effects[0]]
    decreases |effects|
  {
    if |effects| > 0 {
      var n := |effects| - 1;
      assert WellShaped(effects[..n]);
      OnlyHeadIsReceipt(effects[..n]);
    }
  }

  /** `enforced=false` occurs only in observe mode, for an active agent, when the
      policy engine itself answered DENY. */
  lemma UnenforcedOnlyWhenShadowed(cfg: Config, inp: Input, p: nat)
    requires p < |Execute(cfg, inp).effects|
    requires var e := Execute(cfg, inp).effects[p]; e.Receipted? && !e.enforced
    ensures var e := Execute(cfg, inp).effects[p];
      && cfg.mode.Observe?
      && e.decision.decision == Deny
      && e.call.registration.Some? && e.call.registration.value.status.Active?
      && inp.policy == Decides(e.decision)
  {
    hide SubjectFor, CredentialFor, FilterListing, StatusText;
    ExecuteIsWellShaped(cfg, inp);
  }

  /* ---- Shadow mode is a faithful counterfactual ---- */

  ghost predicate SameButEnforcement(a: seq<Effect>, b: seq<Effect>) {
    |a| == |b| && forall i :: 0 <= i < |a| ==>
      a[i].Receipted? && b[i].Receipted? && a[i].call == b[i].call && a[i].decision == b[i].decision
  }

  /** All effects of a run of calls, one after another. */
  function RunAll(cfg: Config, inputs: seq<Input>): seq<Effect>
    decreases |inputs|
  {
    if inputs == [] then []
    else RunAll(cfg, inputs[..|inputs| - 1]) + Execute(cfg, inputs[|inputs| - 1]).effects
  }

  lemma GatesIgnoreMode(cfg: Config, inp: Input, mode: Mode)
    ensures PassesGates(cfg.(mode := mode), inp) <==> PassesGates(cfg, inp)
    ensures PassesGates(cfg, inp) ==>
      && ReceiptFor(cfg.(mode := mode), inp).call == ReceiptFor(cfg, inp).call
      && ReceiptFor(cfg.(mode := mode), inp).decision == ReceiptFor(cfg, inp).decision
  {
    hide Binds, Judge, Header;
  }

  /** The same calls run under observation and under enforcement are receipted
      alike: pointwise the same call (so the same payload hash), decision and reason. */
  lemma {:induction false} ShadowRunsAgree(cfg: Config, inputs: seq<Input>)
    ensures SameButEnforcement(ReceiptsIn(RunAll(cfg.(mode := Observe), inputs)),
                               ReceiptsIn(RunAll(cfg.(mode := Enforce), inputs)))
    decreases |inputs|
  {
    hide PassesGates, ReceiptFor, Execute;
    var o, e := cfg.(mode := Observe), cfg.(mode := Enforce);
    if inputs != [] {
      var front, last := inputs[..|inputs| - 1], inputs[|inputs| - 1];
      ShadowRunsAgree(cfg, front);
      ReceiptsThen(RunAll(o, front), Execute(o, last).effects);
      ReceiptsThen(RunAll(e, front), Execute(e, last).effects);
      OneCallAgrees(cfg, last);
      hide ReceiptsIn;
    }
  }

  lemma OneCallAgrees(cfg: Config, inp: Input)
    ensures SameButEnforcement(ReceiptsIn(Execute(cfg.(mode := Observe), inp).effects),
                               ReceiptsIn(Execute(cfg.(mode := Enforce), inp).effects))
  {
    hide Execute, Judge, SubjectFor;
    ReceiptedOnce(cfg.(mode := Observe), inp);
    ReceiptedOnce(cfg.(mode := Enforce), inp);
    GatesIgnoreMode(cfg, inp, Observe);
    GatesIgnoreMode(cfg, inp, Enforce);
  }

  /** The call was let through. */
  predicate LetThrough(cfg: Config, inp: Input) {
    var r := Authorize(cfg, inp).result;
    r.Outcome? && r.allowed
  }

  /** What enforcement would have blocked is exactly what observation receipted
      as an unenforced DENY, for calls whose receipt was exported. */
  lemma UnenforcedDenyIsTheDifference(cfg: Config, inp: Input)
    requires inp.exported
    ensures (LetThrough(cfg.(mode := Observe), inp) && !LetThrough(cfg.(mode := Enforce), inp))
      <==> exists p :: 0 <= p < |Execute(cfg.(mode := Observe), inp).effects|
             && Execute(cfg.(mode := Observe), inp).effects[p].Receipted?
             && !Execute(cfg.(mode := Observe), inp).effects[p].enforced
             && Execute(cfg.(mode := Observe), inp).effects[p].decision.decision == Deny
    ensures LetThrough(cfg.(mode := Enforce), inp) ==> LetThrough(cfg.(mode := Observe), inp)
  {
    hide CredentialFor, FilterListing, Binds, StatusText, Header;
    var effects := Execute(cfg.(mode := Observe), inp).effects;
    ExecuteIsWellShaped(cfg.(mode := Observe), inp);
    assert effects != [] ==> effects[0].Receipted?;
  }

  /* ---- What the service decides ---- */

  /** A subject token came with the call, and the gateway verifies subjects. */
  predicate PresentsToken(cfg: Config, inp: Input) {
    cfg.verifiesSubjects && "x-subject-token" in inp.headers && inp.headers["x-subject-token"] != ""
  }

  /** A presented token verifies, and its subject is bound to the agent as the mode asks. */
  predicate SubjectAccepted(cfg: Config, inp: Input, agent: AgentIdentity) {
    PresentsToken(cfg, inp) ==>
      && inp.verified.Some?
      && (!cfg.binding.Off? ==> NamesTheClient(agent, inp.verified.value))
      && (cfg.binding.Strict? ==> IsTheSponsor(agent, inp.verified.value))
  }

  lemma SubjectForIff(cfg: Config, inp: Input, agent: AgentIdentity)
    ensures SubjectFor(cfg, inp, agent)
         == if !SubjectAccepted(cfg, inp, agent) then None
            else Some(if PresentsToken(cfg, inp) then inp.verified else None)
  {
    hide NamesTheClient, IsTheSponsor, Binds;
    if inp.verified.Some? {
      BindsIff(agent, inp.verified.value, cfg.binding);
    }
  }

  /** The registration the lookup found, if it is active. */
  predicate IsActive(inp: Input) {
    inp.lookup.Some? && inp.lookup.value.Some? && inp.lookup.value.value.status.Active?
  }

  /** The registry gate and the policy: a call is let through exactly when its agent is
      identified and active, its subject accepted, the policy engine answered, ALLOW or
      in observe mode, and its receipt was recorded and exported. */
  lemma AllowedIff(cfg: Config, inp: Input)
    ensures LetThrough(cfg, inp) <==>
      && inp.identity.Some? && IsActive(inp) && SubjectAccepted(cfg, inp, inp.identity.value)
      && inp.policy.Decides? && (inp.policy.decision.decision == Allow || cfg.mode.Observe?)
      && inp.recorded && inp.exported
  {
    hide SubjectFor, SubjectAccepted, PresentsToken, StatusText;
    if inp.identity.Some? {
      SubjectForIff(cfg, inp, inp.identity.value);
    }
  }

  /** What an outcome says: the call as received and verified; DENY for an unregistered
      or suspended agent and for an engine outage, whatever the mode; otherwise the
      engine's own decision; and its effects are one receipt of that, then the export. */
  lemma OutcomeMeans(cfg: Config, inp: Input)
    requires Authorize(cfg, inp).result.Outcome?
    ensures inp.identity.Some? && inp.lookup.Some? && SubjectAccepted(cfg, inp, inp.identity.value)
    ensures inp.recorded && inp.exported
    ensures var o := Authorize(cfg, inp).result;
      && o.call.rpcMethod == inp.rpcMethod && o.call.toolName == inp.toolName && o.call.arguments == inp.arguments
      && o.call.agent == inp.identity.value && o.call.registration == inp.lookup.value
      && o.call.subject == (if PresentsToken(cfg, inp) then inp.verified else None)
      && (!IsActive(inp) || !inp.policy.Decides? ==> o.decision.decision == Deny && !o.shadowed)
      && (inp.lookup.value.None? ==> o.decision.reason == NOT_REGISTERED)
      && (inp.lookup.value.Some? && !IsActive(inp) ==>
            o.decision.reason == "Agent is " + "suspended" + " in the Agent Registry")
      && (IsActive(inp) && !inp.policy.Decides? ==> inp.policy.Unavailable? && o.decision.reason == FAIL_CLOSED)
      && (IsActive(inp) && inp.policy.Decides? ==>
            && o.decision == inp.policy.decision
            && (o.shadowed <==> cfg.mode.Observe? && o.decision.decision == Deny))
      && (o.allowed <==> o.decision.decision == Allow || o.shadowed)
      && Authorize(cfg, inp).effects == [Receipted(o.call, o.decision, !o.shadowed), Exported]
  {
    hide SubjectFor, SubjectAccepted, PresentsToken;
    SubjectForIff(cfg, inp, inp.identity.value);
  }

  /** When there is none: an identity refusal for an unknown caller or an unaccepted
      subject, and otherwise the failure of a port, receipted only if it is the export's. */
  lemma RefusedMeans(cfg: Config, inp: Input)
    requires Authorize(cfg, inp).result.Refused?
    ensures var r := Authorize(cfg, inp);
      && (r.result.failure == IdentityRefused <==>
            inp.identity.None? || (inp.lookup.Some? && !SubjectAccepted(cfg, inp, inp.identity.value)))
      && (r.result.failure != IdentityRefused ==>
            && r.result.failure == Crash
            && (inp.lookup.None? || (IsActive(inp) && inp.policy.PolicyCrash?) || !inp.recorded || !inp.exported))
      && (r.effects == [] || (inp.recorded && !inp.exported && |r.effects| == 1 && r.effects[0].Receipted?))
  {
    hide SubjectFor, SubjectAccepted, PresentsToken, StatusText;
    if inp.identity.Some? {
      SubjectForIff(cfg, inp, inp.identity.value);
    }
  }

  /** The credential a call that is let through is to be sent with, if it gets one. */
  function CredentialGot(inp: Input, agent: AgentIdentity): Option<string> {
    match CredentialFor(inp, agent)
    case TokenMissing => None
    case Placeholder(text) => Some(text)
    case ToExchange(_) => inp.exchanged
  }

  lemma CredentialIsMissingIff(inp: Input, agent: AgentIdentity)
    ensures CredentialFor(inp, agent).TokenMissing? <==>
      Truthy(agent.humanSponsor) && ("x-subject-token" in inp.headers ==> inp.headers["x-subject-token"] == "")
  {
    hide Partition, Lower;
  }

  /** The whole reply. */
  lemma ReplyMeans(cfg: Config, inp: Input)
    ensures var a := Authorize(cfg, inp); var x := Execute(cfg, inp);
      && (a.result.Refused? ==> x == Traced(a.effects, Raised(a.result.failure)))
      && (a.result.Outcome? && !a.result.allowed ==> x == Traced(a.effects, PolicyViolation(a.result.decision.reason)))
    ensures LetThrough(cfg, inp) ==>
      var a := Authorize(cfg, inp); var x := Execute(cfg, inp);
      var credential := CredentialGot(inp, a.result.call.agent);
      var brokered := CredentialFor(inp, a.result.call.agent);
      && (credential.Some? <==> x.effects != [] && x.effects[|x.effects| - 1].Sent?)
      && (brokered.TokenMissing? ==> x == Traced(a.effects, Raised(MissingSubjectToken)))
      && (brokered.ToExchange? && credential.None? ==>
            x == Traced(a.effects + [Exchanged(brokered.token)], BrokeringFailed))
      && (credential.Some? ==> x.effects[|x.effects| - 1] == Sent(a.result.call, credential.value))
      && (credential.Some? && inp.upstream.UpstreamError? ==> x.result == UpstreamFailed)
      && (credential.Some? && inp.upstream.UpstreamCrash? ==> x.result == Raised(Crash))
      && (credential.Some? && inp.upstream.Responds? ==>
            x.result == match FilterListing(inp.upstream.response, a.result.call)
                        case Some(filtered) => Response(filtered)
                        case None => Raised(Crash))
  {
    hide FilterListing, CredentialFor, Authorize;
    AuthorizeSendsNothing(cfg, inp);
  }

  lemma AuthorizeSendsNothing(cfg: Config, inp: Input)
    ensures var effects := Authorize(cfg, inp).effects; forall p :: 0 <= p < |effects| ==> !effects[p].Sent?
  {
    hide Judge, SubjectFor;
  }

  /** Over every interleaving: whatever is forwarded is of an active agent, and its
      policy engine answered, ALLOW or in observe mode. */
  lemma ForwardIsAuthorized(cfg: Config, calls: map<nat, Input>, log: seq<Logged>, i: nat)
    requires Interleaves(cfg, calls, log) && i < |log| && log[i].effect.Sent?
    ensures var inp := calls[log[i].id];
      && IsActive(inp) && inp.lookup == Some(log[i].effect.sent.registration)
      && inp.policy.Decides? && (inp.policy.decision.decision == Allow || cfg.mode.Observe?)
  {
    hide Execute, Authorize, IsActive, SubjectAccepted, LetThrough;
    var id := log[i].id;
    PlaceOf(log, i);
    var p := |Project(log[..i], id)|;
    assert Execute(cfg, calls[id]).effects[p] == log[i].effect;
    SentIsLetThrough(cfg, calls[id], p);
    AllowedIff(cfg, calls[id]);
    OutcomeMeans(cfg, calls[id]);
  }

  lemma SentIsLetThrough(cfg: Config, inp: Input, p: nat)
    requires p < |Execute(cfg, inp).effects| && Execute(cfg, inp).effects[p].Sent?
    ensures LetThrough(cfg, inp) && Authorize(cfg, inp).result.Outcome?
    ensures Execute(cfg, inp).effects[p].sent == Authorize(cfg, inp).result.call
  {
    hide FilterListing, CredentialFor, Authorize;
    AuthorizeSendsNothing(cfg, inp);
  }

  lemma LowerIsAscii(s: string, i: nat)
    requires i < |s|
    ensures |Lower(s)| == |s|
    ensures 'A' <= s[i] <= 'Z' ==> Lower(s)[i] == "abcdefghijklmnopqrstuvwxyz"[s[i] as int - 'A' as int]
    ensures !('A' <= s[i] <= 'Z') ==> Lower(s)[i] == s[i]
  {
  }

  /* ---- Subjects and credentials ---- */

  /** What each binding mode asks, the stricter asking more: an actor the subject
      names is the agent's client; with no actor named, the subject is the sponsor. */
  lemma BindsIff(agent: AgentIdentity, subject: SubjectIdentity, mode: Binding)
    ensures Binds(agent, subject, mode) <==>
      && (!mode.Off? ==> NamesTheClient(agent, subject))
      && (mode.Strict? ==> IsTheSponsor(agent, subject))
  {
  }

  predicate NamesTheClient(agent: AgentIdentity, subject: SubjectIdentity) {
    subject.authorizedActor.Some? && Truthy(agent.clientId) ==> subject.authorizedActor == agent.clientId
  }

  predicate IsTheSponsor(agent: AgentIdentity, subject: SubjectIdentity) {
    subject.authorizedActor.None? && Truthy(agent.humanSponsor) ==> agent.humanSponsor == Some(subject.subjectId)
  }

  /** Every receipted subject is the one verified, and bound to the agent as the
      mode asks. */
  lemma ReceiptedSubjectIsBound(cfg: Config, inp: Input, p: nat)
    requires p < |Execute(cfg, inp).effects|
    requires var e := Execute(cfg, inp).effects[p]; e.Receipted? && e.call.subject.Some?
    ensures var call := Execute(cfg, inp).effects[p].call;
      && cfg.verifiesSubjects && inp.verified == call.subject
      && (!cfg.binding.Off? ==> NamesTheClient(call.agent, call.subject.value))
      && (cfg.binding.Strict? ==> IsTheSponsor(call.agent, call.subject.value))
  {
    hide CredentialFor, FilterListing, Judge, Header, NamesTheClient, IsTheSponsor, Binds;
    ExecuteIsWellShaped(cfg, inp);
    var call := Execute(cfg, inp).effects[p].call;
    BindsIff(call.agent, call.subject.value, cfg.binding);
  }

  /** `partition(" ")` splits at the first space. */
  lemma {:induction false} PartitionSplits(text: string)
    ensures var (before, after) := Partition(text);
      && ' ' !in before
      && (if ' ' in text then text == before + " " + after else before == text && after == "")
    decreases |text|
  {
    if text != "" && text[0] != ' ' {
      PartitionSplits(text[1..]);
      var (before, after) := Partition(text[1..]);
      assert text == [text[0]] + text[1..];
      assert ([text[0]] + before) + " " + after == [text[0]] + (before + " " + after);
    } else if text != "" {
      assert text == "" + " " + text[1..];
    }
  }

  /** The header is a scheme, one space and a token; the scheme, in any letter case, is "bearer". */
  predicate IsBearer(header: string, scheme: string, token: string) {
    header == scheme + " " + token && ' ' !in scheme && Lower(scheme) == "bearer" && token != ""
  }

  /** An agent without a sponsor exchanges exactly its own bearer token, and the
      placeholder stands for having none. */
  lemma AutonomousCredentialIff(inp: Input, agent: AgentIdentity, token: string)
    requires !Truthy(agent.humanSponsor)
    ensures CredentialFor(inp, agent) == ToExchange(token)
            <==> exists scheme :: IsBearer(Header(inp.headers, "authorization"), scheme, token)
    ensures CredentialFor(inp, agent).ToExchange?
        || CredentialFor(inp, agent) == Placeholder("autonomous::" + agent.spiffeId)
  {
    hide Lower, Partition;
    var header := Header(inp.headers, "authorization");
    var (before, after) := Partition(header);
    PartitionSplits(header);
    if CredentialFor(inp, agent) == ToExchange(token) {
      assert IsBearer(header, before, token);
    }
    forall scheme | IsBearer(header, scheme, token)
      ensures CredentialFor(inp, agent) == ToExchange(token)
    {
      assert header[|scheme|] == ' ';
      SplitsOnce(scheme, token, before, after);
    }
  }

  lemma SplitsOnce(a: string, b: string, c: string, d: string)
    requires a + " " + b == c + " " + d && ' ' !in a && ' ' !in c
    ensures a == c && b == d
  {
    var text := a + " " + b;
    assert text[|a|] == ' ' && text[|c|] == ' ';
    assert forall k :: 0 <= k < |a| ==> text[k] == a[k] != ' ';
    assert forall k :: 0 <= k < |c| ==> text[k] == c[k] != ' ';
    assert |a| == |c|;
    assert text[..|a|] == a && text[..|c|] == c && text[|a| + 1..] == b && text[|c| + 1..] == d;
  }

  /** A sponsored call is forwarded only with the credential exchanged for the
      caller's subject token; a bearer agent's, only with one exchanged for its own. */
  lemma ForwardedCredentialIsExchanged(cfg: Config, inp: Input, p: nat)
    requires p < |Execute(cfg, inp).effects| && Execute(cfg, inp).effects[p].Sent?
    ensures var sent := Execute(cfg, inp).effects[p]; var effects := Execute(cfg, inp).effects;
      match CredentialFor(inp, sent.sent.agent)
      case TokenMissing => false
      case Placeholder(text) => !Truthy(sent.sent.agent.humanSponsor) && sent.credential == text
      case ToExchange(token) =>
        && effects[p - 1] == Exchanged(token) && inp.exchanged == Some(sent.credential)
        && (Truthy(sent.sent.agent.humanSponsor) ==> token == Header(inp.headers, SUBJECT_TOKEN_HEADER))
  {
    hide FilterListing, Judge, SubjectFor, Partition, Lower;
    ExecuteIsWellShaped(cfg, inp);
  }
}

/**
 The gateway over the Postgres ledger: calls interleave with one another and with
 the transactions that record their receipts. A session of the ledger is the
 gateway call it records.
 */
module GatewayLedger {
  import opened Wrappers
  import opened CanonicalJson
  import opened Receipts
  import opened Domain
  import opened Chain
  import L = PostgresLedger
  import opened Governed
  import opened GovernedRuns

  /** The calls, and how a request is dumped for its payload hash. */
  datatype Gateway = Gateway(cfg: Config, calls: map<nat, Input>, dump: ToolCallRequest -> PyJson, crypto: Crypto)

  datatype Event = Ledger(event: L.Event) | Act(id: nat, effect: Effect)

  /** A committed row: whose it is, and whether `record` returned, or failed although
      its transaction had committed. */
  datatype Row = Row(id: nat, acknowledged: bool)

  /** `rows` is history. */
  datatype State = State(db: L.State, log: seq<Logged>, rows: seq<Row>)

  const INITIAL := State(L.INITIAL, [], [])

  /** The call reaches `record`, whether or not `record` then succeeds. */
  predicate Asks(g: Gateway, id: nat) {
    id in g.calls && PassesGates(g.cfg, g.calls[id].(recorded := true))
  }

  function Receipt(g: Gateway, id: nat): (e: Effect)
    requires Asks(g, id)
    ensures e.Receipted? && id in g.calls
  {
    ReceiptFor(g.cfg, g.calls[id].(recorded := true))
  }

  /** What `record` is called with. */
  function RecordArguments(g: Gateway, e: Effect): L.Call
    requires e.Receipted?
  {
    L.Call(e.call.agent.spiffeId, e.decision.decision, e.decision.reason, g.dump(e.call), e.enforced)
  }

  function Step(g: Gateway, s: State, e: Event): Option<State> {
    match e
    case Ledger(event) =>
      (match L.Step(g.crypto, s.db, event)
       case None => None
       case Some(db) =>
         match event
         case Begin(id, call) =>
           if Asks(g, id) && Project(s.log, id) == [] && call == RecordArguments(g, Receipt(g, id))
           then Some(s.(db := db)) else None
         case Commit(id) =>
           var recorded := id in g.calls && g.calls[id].recorded;
           if Asks(g, id)
           then
             var log := if recorded then s.log + [Logged(id, Receipt(g, id))] else s.log;
             Some(State(db, log, s.rows + [Row(id, recorded)]))
           else None
         case _ => Some(s.(db := db)))
    case Act(id, effect) =>
      if id in g.calls && !effect.Receipted? && Project(s.log, id) + [effect] <= Execute(g.cfg, g.calls[id]).effects
      then Some(s.(log := s.log + [Logged(id, effect)])) else None
  }

  function Run(g: Gateway, es: seq<Event>): Option<State>
    decreases |es|
  {
    if es == [] then Some(INITIAL)
    else
      match Run(g, es[..|es| - 1])
      case None => None
      case Some(s) => Step(g, s, es[|es| - 1])
  }

  /** The ledger's part of a run. */
  function LedgerEvents(es: seq<Event>): seq<L.Event>
    decreases |es|
  {
    if es == [] then []
    else LedgerEvents(es[..|es| - 1]) + match es[|es| - 1] case Ledger(event) => [event] case Act(_, _) => []
  }

  lemma StepOfLedger(g: Gateway, s: State, e: Event)
    requires Step(g, s, e).Some?
    ensures e.Ledger? ==> L.Step(g.crypto, s.db, e.event) == Some(Step(g, s, e).value.db)
    ensures e.Act? ==> Step(g, s, e).value.db == s.db
  {
    hide L.Step, Execute, Asks, Receipt, Project;
  }

  lemma {:induction false} LedgerRuns(g: Gateway, es: seq<Event>)
    requires Run(g, es).Some?
    ensures L.Run(g.crypto, L.INITIAL, LedgerEvents(es)) == Some(Run(g, es).value.db)
    decreases |es|
  {
    if es != [] {
      hide L.Step, Step, L.Run;
      LedgerRuns(g, es[..|es| - 1]);
      assert LedgerEvents(es[..|es| - 1]) + [] == LedgerEvents(es[..|es| - 1]);
      var last := es[|es| - 1];
      StepOfLedger(g, Run(g, es[..|es| - 1]).value, last);
      if last.Ledger? {
        L.RunThen(g.crypto, L.INITIAL, LedgerEvents(es[..|es| - 1]), last.event);
      }
    }
  }

  /* ---- The invariant ---- */

  /** The receipts of a log, in order. */
  function LoggedReceipts(log: seq<Logged>): seq<Effect>
    decreases |log|
  {
    if log == [] then []
    else
      var last := log[|log| - 1].effect;
      LoggedReceipts(log[..|log| - 1]) + if last.Receipted? then [last] else []
  }

  /** The ledger receipt says what the gateway decided of that request. */
  predicate Says(g: Gateway, fields: Receipts.Receipt, e: Effect) {
    && e.Receipted?
    && fields.spiffeId == e.call.agent.spiffeId
    && fields.decision == e.decision.decision
    && fields.reason == e.decision.reason
    && fields.payloadHash == L.PayloadHash(g.crypto, g.dump(e.call))
    && fields.enforced == e.enforced
  }

  ghost predicate SessionSays(g: Gateway, s: State, id: nat)
    requires id in s.db.sessions
  {
    && Asks(g, id) && Project(s.log, id) == []
    && match s.db.sessions[id]
       case Waiting(call) => call == RecordArguments(g, Receipt(g, id))
       case Locked(call, _) => call == RecordArguments(g, Receipt(g, id))
       case Signed(entry) => Says(g, entry.fields, Receipt(g, id))
       case Flushed(_, _, entry) => Says(g, entry.fields, Receipt(g, id))
  }

  ghost predicate AllAsked(g: Gateway, rows: seq<Row>) {
    forall k :: 0 <= k < |rows| ==> Asks(g, rows[k].id)
  }

  /** The receipts of the acknowledged rows, in order. */
  ghost function Acknowledged(g: Gateway, rows: seq<Row>): seq<Effect>
    requires AllAsked(g, rows)
    decreases |rows|
  {
    if rows == [] then []
    else
      var last := rows[|rows| - 1];
      assert AllAsked(g, rows[..|rows| - 1]);
      Acknowledged(g, rows[..|rows| - 1]) + if last.acknowledged then [Receipt(g, last.id)] else []
  }

  /** Each committed receipt says what some call asked to record; the log holds those
      whose `record` returned, in order, and no other. */
  ghost predicate HistorySays(g: Gateway, s: State) {
    && |s.db.committed| == |s.rows|
    && AllAsked(g, s.rows)
    && (forall k :: 0 <= k < |s.rows| ==> Says(g, s.db.committed[k].fields, Receipt(g, s.rows[k].id)))
    && LoggedReceipts(s.log) == Acknowledged(g, s.rows)
  }

  lemma AcknowledgedThen(g: Gateway, rows: seq<Row>, row: Row)
    requires AllAsked(g, rows) && Asks(g, row.id)
    ensures AllAsked(g, rows + [row])
    ensures Acknowledged(g, rows + [row])
      == Acknowledged(g, rows) + if row.acknowledged then [Receipt(g, row.id)] else []
  {
    hide Asks;
    assert (rows + [row])[..|rows|] == rows;
  }

  lemma {:induction false} AcknowledgedIsARow(g: Gateway, rows: seq<Row>, m: nat) returns (k: nat)
    requires AllAsked(g, rows) && m < |Acknowledged(g, rows)|
    ensures k < |rows| && rows[k].acknowledged && Acknowledged(g, rows)[m] == Receipt(g, rows[k].id)
    decreases |rows|
  {
    hide Asks;
    var n := |rows| - 1;
    assert AllAsked(g, rows[..n]);
    if m < |Acknowledged(g, rows[..n])| {
      k := AcknowledgedIsARow(g, rows[..n], m);
    } else {
      k := n;
    }
  }

  ghost predicate Invariant(g: Gateway, s: State) {
    && (forall id :: id in s.db.sessions ==> SessionSays(g, s, id))
    && HistorySays(g, s)
    && Interleaves(g.cfg, g.calls, s.log)
  }

  lemma ReceiptComesFirst(g: Gateway, id: nat)
    requires Asks(g, id) && g.calls[id].recorded
    ensures [Receipt(g, id)] <= Execute(g.cfg, g.calls[id]).effects
  {
    hide Execute, PassesGates, ReceiptFor, WellShaped;
    var inp := g.calls[id];
    assert inp.(recorded := true) == inp;
    var effects := Execute(g.cfg, inp).effects;
    ExecuteIsWellShaped(g.cfg, inp);
    ReceiptedOnce(g.cfg, inp);
    OnlyHeadIsReceipt(effects);
  }

  lemma OthersComeLater(cfg: Config, inp: Input, before: seq<Effect>, effect: Effect)
    requires before + [effect] <= Execute(cfg, inp).effects && !effect.Receipted?
    ensures before != []
  {
    hide Execute;
    ExecuteIsWellShaped(cfg, inp);
    assert (before + [effect])[|before|] == effect;
    assert Execute(cfg, inp).effects[|before|] == effect;
  }

  lemma LogThen(log: seq<Logged>, id: nat, effect: Effect, other: nat)
    ensures var longer := log + [Logged(id, effect)];
      && Project(longer, other) == Project(log, other) + (if other == id then [effect] else [])
      && LoggedReceipts(longer) == LoggedReceipts(log) + (if effect.Receipted? then [effect] else [])
  {
    ProjectThen(log, id, effect, other);
    hide Project;
    assert (log + [Logged(id, effect)])[..|log|] == log;
  }

  lemma ActKeepsInvariant(g: Gateway, s: State, id: nat, effect: Effect)
    requires Invariant(g, s) && Step(g, s, Act(id, effect)).Some?
    ensures Invariant(g, Step(g, s, Act(id, effect)).value)
  {
    hide Execute, PassesGates, ReceiptFor, Says, Project, LoggedReceipts, Interleaves;
    var u := Step(g, s, Act(id, effect)).value;
    InterleavesThen(g.cfg, g.calls, s.log, id, effect);
    LogThen(s.log, id, effect, id);
    OthersComeLater(g.cfg, g.calls[id], Project(s.log, id), effect);
    forall other | other in u.db.sessions
      ensures SessionSays(g, u, other)
    {
      assert SessionSays(g, s, other);
      LogThen(s.log, id, effect, other);
    }
  }

  lemma CommitKeepsInvariant(g: Gateway, s: State, id: nat)
    requires Invariant(g, s) && Step(g, s, Ledger(L.Commit(id))).Some?
    ensures Invariant(g, Step(g, s, Ledger(L.Commit(id))).value)
  {
    hide Execute, PassesGates, ReceiptFor, Says, Project, LoggedReceipts, Interleaves, Link, Acknowledged;
    var u := Step(g, s, Ledger(L.Commit(id))).value;
    var effect := Receipt(g, id);
    assert SessionSays(g, s, id);
    AcknowledgedThen(g, s.rows, Row(id, g.calls[id].recorded));
    assert Acknowledged(g, s.rows) + [] == Acknowledged(g, s.rows);
    if g.calls[id].recorded {
      ReceiptComesFirst(g, id);
      assert Project(s.log, id) + [effect] == [effect];
      InterleavesThen(g.cfg, g.calls, s.log, id, effect);
      LogThen(s.log, id, effect, id);
    }
    forall other | other in u.db.sessions
      ensures SessionSays(g, u, other)
    {
      assert SessionSays(g, s, other);
      LogThen(s.log, id, effect, other);
    }
  }

  lemma LedgerKeepsInvariant(g: Gateway, s: State, event: L.Event)
    requires Invariant(g, s) && !event.Commit? && Step(g, s, Ledger(event)).Some?
    ensures Invariant(g, Step(g, s, Ledger(event)).value)
  {
    hide Execute, PassesGates, ReceiptFor, Project, LoggedReceipts, Interleaves, Link, UnsignedBytes,
         L.SequenceIdTaken, ToRow, L.PayloadHash;
    var u := Step(g, s, Ledger(event)).value;
    forall id | id in u.db.sessions
      ensures SessionSays(g, u, id)
    {
      assert id in s.db.sessions ==> SessionSays(g, s, id);
    }
  }

  lemma {:induction false} RunKeepsInvariant(g: Gateway, es: seq<Event>)
    requires Run(g, es).Some?
    ensures Invariant(g, Run(g, es).value)
    decreases |es|
  {
    if es != [] {
      hide Invariant, Step;
      RunKeepsInvariant(g, es[..|es| - 1]);
      var s, last := Run(g, es[..|es| - 1]).value, es[|es| - 1];
      match last
      case Act(id, effect) => ActKeepsInvariant(g, s, id, effect);
      case Ledger(event) =>
        if event.Commit? {
          CommitKeepsInvariant(g, s, event.session);
        } else {
          LedgerKeepsInvariant(g, s, event);
        }
    }
  }

  /* ---- What joins them ---- */

  /** In every run of the gateway over the ledger, each committed row is of a call that
      asked to record, the log holds the acknowledged ones in order, and the table
      verifies in full. */
  lemma HistoryIsTheLog(g: Gateway, es: seq<Event>)
    requires SoundSigner(g.crypto) && Run(g, es).Some?
    ensures var s := Run(g, es).value; var rows := L.OrderById(s.db.table, s.db.nextId);
      && HistorySays(g, s)
      && L.Holds(rows, s.db.committed)
      && VerifyFrom(g.crypto, GENESIS_HASH, 0, rows) == Report(true, |s.rows|, None)
  {
    hide Run, L.Run, L.OrderById, VerifyFrom, L.Holds, LinkedFrom, HeadAt, Interleaves, Says, LoggedReceipts,
         Acknowledged, L.UniqueSequenceIds, AllAsked;
    RunKeepsInvariant(g, es);
    LedgerRuns(g, es);
    L.EveryInterleavingVerifies(g.crypto, LedgerEvents(es));
    L.RunKeepsInvariant(g.crypto, LedgerEvents(es));
  }

  /** When every commit was acknowledged, the committed history is the log's receipts,
      one for one and in order. */
  lemma HistoryIsExactlyTheLog(g: Gateway, es: seq<Event>, k: nat)
    requires SoundSigner(g.crypto) && Run(g, es).Some?
    requires forall n :: 0 <= n < |Run(g, es).value.rows| ==> Run(g, es).value.rows[n].acknowledged
    ensures var s := Run(g, es).value;
      && |s.db.committed| == |LoggedReceipts(s.log)|
      && (k < |s.db.committed| ==> Says(g, s.db.committed[k].fields, LoggedReceipts(s.log)[k]))
  {
    hide Run, L.OrderById, VerifyFrom, L.Holds, Says, LoggedReceipts, Acknowledged, Asks;
    HistoryIsTheLog(g, es);
    AllAcknowledged(g, Run(g, es).value.rows);
  }

  lemma {:induction false} AllAcknowledged(g: Gateway, rows: seq<Row>)
    requires AllAsked(g, rows) && forall n :: 0 <= n < |rows| ==> rows[n].acknowledged
    ensures |Acknowledged(g, rows)| == |rows|
    ensures forall n :: 0 <= n < |rows| ==> Acknowledged(g, rows)[n] == Receipt(g, rows[n].id)
    decreases |rows|
  {
    hide Asks;
    if rows != [] {
      AllAcknowledged(g, rows[..|rows| - 1]);
    }
  }

  /** Two committed rows that carry one payload hash are of requests that mean the
      same, or two distinct texts share a digest. */
  lemma SameHashSameRequest(g: Gateway, es: seq<Event>, s: State, k: nat, l: nat)
    requires Run(g, es) == Some(s) && k < |s.db.committed| && l < |s.db.committed|
    requires s.db.committed[k].fields.payloadHash == s.db.committed[l].fields.payloadHash
    ensures |s.rows| == |s.db.committed| && Asks(g, s.rows[k].id) && Asks(g, s.rows[l].id)
    ensures SameMeaning(g, Receipt(g, s.rows[k].id).call, Receipt(g, s.rows[l].id).call)
  {
    hide Run, LoggedReceipts, Acknowledged, Interleaves, Asks, Receipt, L.PayloadHash, L.PayloadsCollide,
         CanonicalBytes, Denote;
    RunKeepsInvariant(g, es);
    var a, b := Receipt(g, s.rows[k].id), Receipt(g, s.rows[l].id);
    assert Says(g, s.db.committed[k].fields, a) && Says(g, s.db.committed[l].fields, b);
    L.PayloadHashCommits(g.crypto, g.dump(a.call), g.dump(b.call));
  }

  /** The two requests' dumps mean the same, or collide. */
  predicate SameMeaning(g: Gateway, a: ToolCallRequest, b: ToolCallRequest) {
    Denote(g.dump(a)) == Denote(g.dump(b)) || L.PayloadsCollide(g.crypto, g.dump(a), g.dump(b))
  }

  /** A commit is always possible to the gateway when it is to the ledger, and the log
      grows by the call's receipt exactly when `record` returns. */
  lemma CommitIsLogged(g: Gateway, s: State, id: nat)
    requires Asks(g, id) && L.Step(g.crypto, s.db, L.Commit(id)).Some?
    ensures Step(g, s, Ledger(L.Commit(id))).Some?
    ensures Step(g, s, Ledger(L.Commit(id))).value.log
         == if g.calls[id].recorded then s.log + [Logged(id, Receipt(g, id))] else s.log
  {
    hide L.Step, PassesGates, ReceiptFor;
  }

  lemma {:induction false} ReceiptIsListed(log: seq<Logged>, j: nat) returns (k: nat)
    requires j < |log| && log[j].effect.Receipted?
    ensures k < |LoggedReceipts(log)| && LoggedReceipts(log)[k] == log[j].effect
    decreases |log|
  {
    var n := |log| - 1;
    if j == n {
      k := |LoggedReceipts(log[..n])|;
    } else {
      k := ReceiptIsListed(log[..n], j);
    }
  }

  /** A call is forwarded only when a committed row of a table that verifies in full
      already says what was decided of the request forwarded: ALLOW, or an unenforced DENY. */
  lemma ForwardHasACommittedRow(g: Gateway, es: seq<Event>, i: nat) returns (j: nat, k: nat)
    requires SoundSigner(g.crypto) && Run(g, es).Some?
    requires i < |Run(g, es).value.log| && Run(g, es).value.log[i].effect.Sent?
    ensures var s := Run(g, es).value; var rows := L.OrderById(s.db.table, s.db.nextId);
      && j < i && s.log[j].id == s.log[i].id && Permitting(s.log[j].effect)
          && s.log[j].effect.call == s.log[i].effect.sent
      && k < |rows| && ReadRow(rows[k]).Some? && Says(g, ReadRow(rows[k]).value.fields, s.log[j].effect)
      && Accepted(g.crypto, rows)
  {
    hide Run, L.OrderById, VerifyFrom, ReadRow, Says, LoggedReceipts, Execute, Project, Acknowledged, Asks;
    RunKeepsInvariant(g, es);
    HistoryIsTheLog(g, es);
    var s := Run(g, es).value;
    j := ForwardFollowsOwnReceipt(g.cfg, g.calls, s.log, i);
    var m := ReceiptIsListed(s.log, j);
    k := AcknowledgedIsARow(g, s.rows, m);
    assert Entries(L.OrderById(s.db.table, s.db.nextId))[k] == s.db.committed[k];
  }
}

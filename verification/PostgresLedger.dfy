/**
 `PostgresLedger.record` as run by any number of replicas: each call is a
 transaction that locks the chain head row, signs, inserts and commits, or
 aborts anywhere on the way.
 */
module PostgresLedger {
  import opened Wrappers
  import opened CanonicalJson
  import opened Receipts
  import opened Chain
  import opened TamperEvidence

  /** What one `record` call is asked to receipt. */
  datatype Call = Call(spiffeId: string, decision: Decision, reason: string, request: PyJson, enforced: bool)

  datatype Phase =
    | Waiting(call: Call)                                   // for the row lock
    | Locked(call: Call, head: string)                      // chain_state read under the lock
    | Signed(entry: Sealed)
    | Flushed(id: nat, row: ReceiptRow, entry: Sealed)      // inserted, not yet visible to others

  datatype Event =
    | Begin(session: nat, call: Call)
    | AcquireLock(session: nat)
    | Sign(session: nat, sequenceId: string, now: Timestamp)
    | Flush(session: nat, zone: Zone)
    | Commit(session: nat)
    | Abort(session: nat)
    | LoseId                                                // a sequence value consumed by a failed insert

  /** The database, the open transactions, and two history variables: what was
      committed, in order, and every signature ever made. */
  datatype State = State(
    table: map<nat, ReceiptRow>,
    nextId: nat,
    chainHead: string,
    lockedBy: Option<nat>,
    sessions: map<nat, Phase>,
    committed: seq<Sealed>,
    attempts: set<Attempt>)

  const INITIAL: State := State(map[], 1, GENESIS_HASH, None, map[], [], {})

  function PayloadHash(c: Crypto, request: PyJson): string {
    c.sha256(CanonicalBytes(request))
  }

  /** The payload hash commits to what the request means: two requests share it exactly
      when they mean the same, or when two distinct texts share a digest. */
  lemma PayloadHashCommits(c: Crypto, a: PyJson, b: PyJson)
    ensures PayloadHash(c, a) == PayloadHash(c, b) <==> Denote(a) == Denote(b) || PayloadsCollide(c, a, b)
  {
    hide CanonicalBytes, Denote;
    CanonicalBytesCommit(a, b);
  }

  predicate PayloadsCollide(c: Crypto, a: PyJson, b: PyJson) {
    CanonicalBytes(a) != CanonicalBytes(b) && c.sha256(CanonicalBytes(a)) == c.sha256(CanonicalBytes(b))
  }

  function NewReceipt(c: Crypto, call: Call, head: string, sequenceId: string, now: Timestamp): Receipt {
    Receipt(sequenceId, now, call.spiffeId, call.decision, call.reason, PayloadHash(c, call.request), head,
      call.enforced)
  }

  /** The receipt says what was asked, names the head, and is signed over its own octets. */
  ghost predicate IsReceiptOf(c: Crypto, call: Call, head: string, sequenceId: string, now: Timestamp, e: Sealed) {
    && e.fields.sequenceId == sequenceId && e.fields.timestamp == now
    && e.fields.spiffeId == call.spiffeId && e.fields.decision == call.decision && e.fields.reason == call.reason
    && e.fields.enforced == call.enforced && e.fields.previousHash == head
    && e.fields.payloadHash == c.sha256(CanonicalBytes(call.request))
    && e.signature == c.sign(UnsignedBytes(e.fields))
  }

  function SignReceipt(c: Crypto, receipt: Receipt): Sealed {
    Sealed(receipt, c.sign(UnsignedBytes(receipt)))
  }

  lemma SignedIsReceiptOf(c: Crypto, call: Call, head: string, sequenceId: string, now: Timestamp)
    ensures IsReceiptOf(c, call, head, sequenceId, now, SignReceipt(c, NewReceipt(c, call, head, sequenceId, now)))
  {
    hide UnsignedBytes, CanonicalBytes;
  }

  /** The unique constraint on `sequence_id`. */
  predicate SequenceIdTaken(table: map<nat, ReceiptRow>, sequenceId: string) {
    exists id :: id in table && table[id].sequenceId == sequenceId
  }

  /** One step of one transaction; `None` when the step cannot happen. */
  function Step(c: Crypto, s: State, e: Event): Option<State> {
    match e
    case Begin(r, call) =>
      if r !in s.sessions
      then Some(s.(sessions := s.sessions[r := Waiting(call)])) else None
    case AcquireLock(r) =>
      if r in s.sessions && s.sessions[r].Waiting? && s.lockedBy.None?
      then Some(s.(lockedBy := Some(r), sessions := s.sessions[r := Locked(s.sessions[r].call, s.chainHead)])) else None
    case Sign(r, sequenceId, now) =>
      if r in s.sessions && s.sessions[r].Locked? && now.zone.Utc?
      then
        var entry := SignReceipt(c, NewReceipt(c, s.sessions[r].call, s.sessions[r].head, sequenceId, now));
        Some(s.(sessions := s.sessions[r := Signed(entry)],
                attempts := s.attempts + {Attempt(|s.committed|, entry)}))
      else None
    case Flush(r, zone) =>
      if r in s.sessions && s.sessions[r].Signed? && !SequenceIdTaken(s.table, s.sessions[r].entry.fields.sequenceId)
      then
        var entry := s.sessions[r].entry;
        Some(s.(sessions := s.sessions[r := Flushed(s.nextId, ToRow(entry.fields, Hex(entry.signature), zone), entry)],
                nextId := s.nextId + 1))
      else None
    case Commit(r) =>
      if r in s.sessions && s.sessions[r].Flushed?
      then
        var t := s.sessions[r];
        Some(s.(table := s.table[t.id := t.row], chainHead := Link(c, t.entry), lockedBy := None,
                sessions := s.sessions - {r}, committed := s.committed + [t.entry]))
      else None
    case Abort(r) =>
      if r in s.sessions
      then Some(s.(lockedBy := if s.lockedBy == Some(r) then None else s.lockedBy, sessions := s.sessions - {r}))
      else None
    case LoseId => Some(s.(nextId := s.nextId + 1))
  }

  function Run(c: Crypto, s: State, es: seq<Event>): Option<State> {
    if es == [] then Some(s)
    else
      match Run(c, s, es[..|es| - 1])
      case None => None
      case Some(t) => Step(c, t, es[|es| - 1])
  }

  function Commits(es: seq<Event>): nat {
    if es == [] then 0 else Commits(es[..|es| - 1]) + if es[|es| - 1].Commit? then 1 else 0
  }

  /** `SELECT ... ORDER BY id`, all ids being below `bound`. */
  function OrderById(table: map<nat, ReceiptRow>, bound: nat): seq<ReceiptRow> {
    if bound == 0 then []
    else OrderById(table, bound - 1) + if bound - 1 in table then [table[bound - 1]] else []
  }

  /* ---- The invariant ---- */

  ghost predicate Holds(rows: seq<ReceiptRow>, es: seq<Sealed>) {
    Readable(rows) && Entries(rows) == es
  }

  ghost predicate SessionOk(c: Crypto, s: State, r: nat)
    requires r in s.sessions
  {
    var t := s.sessions[r];
    && (!t.Waiting? ==> s.lockedBy == Some(r))
    && (t.Locked? ==> t.head == s.chainHead)
    && (t.Signed? ==> Attempt(|s.committed|, t.entry) in s.attempts && t.entry.fields.timestamp.zone.Utc?)
    && (t.Flushed? ==>
          && Attempt(|s.committed|, t.entry) in s.attempts
          && ReadRow(t.row) == Some(t.entry)
          && t.id < s.nextId && (forall id :: id in s.table ==> id < t.id)
          && !SequenceIdTaken(s.table, t.row.sequenceId))
  }

  predicate UniqueSequenceIds(table: map<nat, ReceiptRow>) {
    forall i, j :: i in table && j in table && table[i].sequenceId == table[j].sequenceId ==> i == j
  }

  ghost predicate Invariant(c: Crypto, s: State) {
    && Recorded(c, s.committed, s.attempts)
    && s.chainHead == HeadAt(c, s.committed, |s.committed|)
    && (forall id :: id in s.table ==> id < s.nextId)
    && Holds(OrderById(s.table, s.nextId), s.committed)
    && UniqueSequenceIds(s.table)
    && (forall r :: r in s.sessions ==> SessionOk(c, s, r))
  }

  lemma {:induction false} OrderByIdStops(table: map<nat, ReceiptRow>, low: nat, high: nat)
    requires low <= high && forall id :: id in table ==> id < low
    ensures OrderById(table, high) == OrderById(table, low)
  {
    if low < high {
      OrderByIdStops(table, low, high - 1);
    }
  }

  lemma {:induction false} OrderByIdFrame(table: map<nat, ReceiptRow>, id: nat, row: ReceiptRow, bound: nat)
    requires bound <= id
    ensures OrderById(table[id := row], bound) == OrderById(table, bound)
  {
    if bound > 0 {
      OrderByIdFrame(table, id, row, bound - 1);
    }
  }

  /** A row with the largest id comes last. */
  lemma OrderByIdAppend(table: map<nat, ReceiptRow>, id: nat, row: ReceiptRow, bound: nat)
    requires id < bound && forall k :: k in table ==> k < id
    ensures OrderById(table[id := row], bound) == OrderById(table, bound) + [row]
  {
    OrderByIdStops(table, id, bound);
    OrderByIdStops(table[id := row], id + 1, bound);
    OrderByIdFrame(table, id, row, id);
  }

  lemma RecordedExtends(c: Crypto, committed: seq<Sealed>, attempts: set<Attempt>, e: Sealed)
    requires Recorded(c, committed, attempts) && Attempt(|committed|, e) in attempts
    ensures Recorded(c, committed + [e], attempts)
  {
    hide UnsignedBytes, Link;
    var longer := committed + [e];
    forall a | a in attempts
      ensures SignedAt(c, longer, a)
    {
      assert SignedAt(c, committed, a);
      assert HeadAt(c, longer, a.at) == HeadAt(c, committed, a.at);
    }
    assert forall k :: 0 <= k < |committed| ==> longer[k] == committed[k];
  }

  lemma RecordedSigns(c: Crypto, committed: seq<Sealed>, attempts: set<Attempt>, receipt: Receipt)
    requires Recorded(c, committed, attempts) && receipt.previousHash == HeadAt(c, committed, |committed|)
    ensures Recorded(c, committed, attempts + {Attempt(|committed|, SignReceipt(c, receipt))})
  {
    hide UnsignedBytes, HeadAt;
  }

  lemma RowReadsBack(entry: Sealed, zone: Zone)
    requires entry.fields.timestamp.zone.Utc?
    ensures ReadRow(ToRow(entry.fields, Hex(entry.signature), zone)) == Some(entry)
  {
    RowRoundTrip(entry.fields, Hex(entry.signature), zone);
    HexRoundTrip(entry.signature);
    hide ToDomain, FromHex, Hex;
  }

  lemma SignKeepsInvariant(c: Crypto, s: State, e: Event)
    requires Invariant(c, s) && e.Sign? && Step(c, s, e).Some?
    ensures Invariant(c, Step(c, s, e).value)
  {
    hide UnsignedBytes, HeadAt, Holds, OrderById, ReadRow, Recorded, PayloadHash, UniqueSequenceIds, SequenceIdTaken;
    var r, t := e.session, Step(c, s, e).value;
    assert SessionOk(c, s, r);
    RecordedSigns(c, s.committed, s.attempts,
      NewReceipt(c, s.sessions[r].call, s.sessions[r].head, e.sequenceId, e.now));
    forall q | q in t.sessions
      ensures SessionOk(c, t, q)
    {
      assert q in s.sessions && SessionOk(c, s, q);
    }
  }

  lemma FlushKeepsInvariant(c: Crypto, s: State, e: Event)
    requires Invariant(c, s) && e.Flush? && Step(c, s, e).Some?
    ensures Invariant(c, Step(c, s, e).value)
  {
    hide HeadAt, ReadRow, Recorded, UniqueSequenceIds, SequenceIdTaken, Hex;
    var r, t := e.session, Step(c, s, e).value;
    assert SessionOk(c, s, r);
    RowReadsBack(s.sessions[r].entry, e.zone);
    OrderByIdStops(s.table, s.nextId, t.nextId);
    forall q | q in t.sessions
      ensures SessionOk(c, t, q)
    {
      assert q in s.sessions && SessionOk(c, s, q);
    }
  }

  lemma CommitKeepsInvariant(c: Crypto, s: State, e: Event)
    requires Invariant(c, s) && e.Commit? && Step(c, s, e).Some?
    ensures Invariant(c, Step(c, s, e).value)
  {
    hide Link, ReadRow, Recorded, OrderById;
    var r, t := e.session, Step(c, s, e).value;
    assert SessionOk(c, s, r);
    var done := s.sessions[r];
    RecordedExtends(c, s.committed, s.attempts, done.entry);
    OrderByIdAppend(s.table, done.id, done.row, s.nextId);
    HoldsAppend(OrderById(s.table, s.nextId), s.committed, done.row, done.entry);
    forall q | q in t.sessions
      ensures SessionOk(c, t, q)
    {
      assert q in s.sessions && SessionOk(c, s, q);
    }
  }

  lemma HoldsAppend(rows: seq<ReceiptRow>, es: seq<Sealed>, row: ReceiptRow, e: Sealed)
    requires Holds(rows, es) && ReadRow(row) == Some(e)
    ensures Holds(rows + [row], es + [e])
  {
    hide ReadRow;
    assert forall i :: 0 <= i < |rows| ==> (rows + [row])[i] == rows[i];
  }

  lemma OtherStepKeepsInvariant(c: Crypto, s: State, e: Event)
    requires Invariant(c, s) && Step(c, s, e).Some? && (e.Begin? || e.AcquireLock? || e.Abort? || e.LoseId?)
    ensures Invariant(c, Step(c, s, e).value)
  {
    hide HeadAt, Holds, OrderById, ReadRow, Recorded, UniqueSequenceIds, SequenceIdTaken, SignReceipt;
    var t := Step(c, s, e).value;
    OrderByIdStops(s.table, s.nextId, t.nextId);
    forall q | q in t.sessions
      ensures SessionOk(c, t, q)
    {
      assert q in s.sessions ==> SessionOk(c, s, q);
    }
  }

  lemma StepKeepsInvariant(c: Crypto, s: State, e: Event)
    requires Invariant(c, s) && Step(c, s, e).Some?
    ensures Invariant(c, Step(c, s, e).value)
  {
    hide Invariant, Step;
    match e
    case Sign(_, _, _) => SignKeepsInvariant(c, s, e);
    case Flush(_, _) => FlushKeepsInvariant(c, s, e);
    case Commit(_) => CommitKeepsInvariant(c, s, e);
    case _ => OtherStepKeepsInvariant(c, s, e);
  }

  lemma StepCommits(c: Crypto, s: State, e: Event)
    requires Step(c, s, e).Some?
    ensures |Step(c, s, e).value.committed| == |s.committed| + if e.Commit? then 1 else 0
  {
    hide SequenceIdTaken, SignReceipt, Link;
  }

  lemma InitialInvariant(c: Crypto)
    ensures Invariant(c, INITIAL)
  {
    assert OrderById(INITIAL.table, 0) == [];
  }

  lemma {:induction false} RunKeepsInvariant(c: Crypto, es: seq<Event>)
    requires Run(c, INITIAL, es).Some?
    ensures Invariant(c, Run(c, INITIAL, es).value)
    ensures |Run(c, INITIAL, es).value.committed| == Commits(es)
    decreases |es|
  {
    hide Invariant, Step;
    if es == [] {
      InitialInvariant(c);
    } else {
      var s, e := Run(c, INITIAL, es[..|es| - 1]).value, es[|es| - 1];
      RunKeepsInvariant(c, es[..|es| - 1]);
      StepKeepsInvariant(c, s, e);
      StepCommits(c, s, e);
    }
  }

  /* ---- What every interleaving guarantees ---- */

  /** However the replicas interleave, commit and abort: the committed rows, in
      id order, are one signed chain that `verify_chain` accepts in full, and
      `chain_state` is the hash of the last committed row. */
  lemma EveryInterleavingVerifies(c: Crypto, es: seq<Event>)
    requires SoundSigner(c) && Run(c, INITIAL, es).Some?
    ensures var s := Run(c, INITIAL, es).value; var rows := OrderById(s.table, s.nextId);
      && VerifyFrom(c, GENESIS_HASH, 0, rows) == Report(true, Commits(es), None)
      && Holds(rows, s.committed)
      && LinkedFrom(c, GENESIS_HASH, s.committed)
      && s.chainHead == HeadAt(c, s.committed, |s.committed|)
      && UniqueSequenceIds(s.table)
  {
    hide Step, VerifyFrom, Link, SessionOk, ReadRow, HeadAt, UnsignedBytes;
    RunKeepsInvariant(c, es);
    var s := Run(c, INITIAL, es).value;
    var rows := OrderById(s.table, s.nextId);
    CommittedIsLinked(c, s.committed, s.attempts);
    AcceptedIff(c, rows);
  }

  lemma CommittedIsLinked(c: Crypto, committed: seq<Sealed>, attempts: set<Attempt>)
    requires SoundSigner(c) && Recorded(c, committed, attempts)
    ensures LinkedFrom(c, GENESIS_HASH, committed)
  {
    hide UnsignedBytes, Link;
    if committed != [] {
      var n := |committed| - 1;
      assert Attempt(n, committed[n]) in attempts && committed == committed[..n] + [committed[n]];
      assert EndsWith(committed, committed, Attempt(n, committed[n]));
      GenuineIsLinked(c, committed, attempts, committed);
    }
  }

  /** The chain never forks: two committed receipts name different predecessors,
      or the hash function is broken. */
  lemma NoFork(c: Crypto, es: seq<Event>, i: nat, j: nat)
    requires SoundSigner(c) && Run(c, INITIAL, es).Some?
    requires var s := Run(c, INITIAL, es).value;
      && i < j < |s.committed|
      && s.committed[i].fields.previousHash == s.committed[j].fields.previousHash
    ensures HashBroken(c, AllEntries(Run(c, INITIAL, es).value.attempts))
  {
    hide Step, SessionOk, OrderById, UnsignedBytes, Link, HashBroken;
    RunKeepsInvariant(c, es);
    var s := Run(c, INITIAL, es).value;
    if !HashBroken(c, AllEntries(s.attempts)) {
      CommittedFacts(c, s.committed, s.attempts, i);
      CommittedFacts(c, s.committed, s.attempts, j);
      HeadsAreDistinct(c, s.committed, s.attempts, i, j);
    }
  }

  /** After any run, the tables `verify_chain` accepts are known exactly. */
  lemma AcceptedTablesAfterRun(c: Crypto, es: seq<Event>, rows: seq<ReceiptRow>)
    requires SoundSigner(c) && Run(c, INITIAL, es).Some?
    ensures var s := Run(c, INITIAL, es).value;
      && (Readable(rows) && Genuine(Entries(rows), s.committed, s.attempts) ==> Accepted(c, rows))
      && (Accepted(c, rows) ==>
            && Readable(rows)
            && (|| Genuine(Entries(rows), s.committed, s.attempts)
                || HashBroken(c, AllEntries(s.attempts))
                || Forged(c, Entries(rows), s.attempts)))
  {
    hide Step, Holds, SessionOk, OrderById, Recorded, Accepted, Genuine, HashBroken, Forged, ReadRow;
    RunKeepsInvariant(c, es);
    var s := Run(c, INITIAL, es).value;
    ExactTamperEvidence(c, s.committed, s.attempts, rows);
  }

  /** A run that leaves nothing signed uncommitted: no abort after signing, none in flight. */
  ghost predicate NothingLost(s: State) {
    forall a :: a in s.attempts ==> a.at < |s.committed| && a.entry == s.committed[a.at]
  }

  /** Then every edit, insertion, reordering or non-tail deletion is rejected. */
  lemma AcceptedIsPrefixAfterCleanRun(c: Crypto, es: seq<Event>, rows: seq<ReceiptRow>)
    requires SoundSigner(c) && Run(c, INITIAL, es).Some? && NothingLost(Run(c, INITIAL, es).value)
    ensures var s := Run(c, INITIAL, es).value;
      && (Readable(rows) && Entries(rows) <= s.committed ==> Accepted(c, rows))
      && (Accepted(c, rows) ==>
            && Readable(rows)
            && (|| Entries(rows) <= s.committed
                || HashBroken(c, AllEntries(s.attempts))
                || Forged(c, Entries(rows), s.attempts)))
  {
    hide Step, Holds, SessionOk, OrderById, Recorded, Accepted, HashBroken, Forged, ReadRow;
    RunKeepsInvariant(c, es);
    var s := Run(c, INITIAL, es).value;
    AcceptedIffPrefix(c, s.committed, s.attempts, rows);
  }

  /** A signing that never committed can be slipped in as the last row. */
  lemma LostSigningIsAccepted(c: Crypto, es: seq<Event>, a: Attempt, rows: seq<ReceiptRow>)
    requires SoundSigner(c) && Run(c, INITIAL, es).Some?
    requires var s := Run(c, INITIAL, es).value;
      && a in s.attempts && a.at <= |s.committed| && !(a.at < |s.committed| && a.entry == s.committed[a.at])
      && Readable(rows) && Entries(rows) == s.committed[..a.at] + [a.entry]
    ensures Accepted(c, rows) && !(Entries(rows) <= Run(c, INITIAL, es).value.committed)
  {
    hide Step, Holds, SessionOk, OrderById, Recorded, HashBroken, Forged, ReadRow, VerifyFrom;
    RunKeepsInvariant(c, es);
    var s := Run(c, INITIAL, es).value;
    assert EndsWith(Entries(rows), s.committed, a);
    ExactTamperEvidence(c, s.committed, s.attempts, rows);
    assert Entries(rows)[a.at] == a.entry;
  }

  /** Every receipt ever signed carries a UTC timestamp. */
  ghost predicate SignedInUtc(s: State) {
    forall a :: a in s.attempts ==> a.entry.fields.timestamp.zone.Utc?
  }

  lemma {:induction false} RunSignsInUtc(c: Crypto, es: seq<Event>)
    requires Run(c, INITIAL, es).Some?
    ensures SignedInUtc(Run(c, INITIAL, es).value)
    decreases |es|
  {
    hide UnsignedBytes, Link, PayloadHash, SequenceIdTaken, ToRow;
    if es != [] {
      RunSignsInUtc(c, es[..|es| - 1]);
    }
  }

  /** The rows that hold these entries. */
  function RowsOf(es: seq<Sealed>): seq<ReceiptRow> {
    seq(|es|, i requires 0 <= i < |es| => ToRow(es[i].fields, Hex(es[i].signature), Utc))
  }

  lemma RowsOfReadBack(es: seq<Sealed>)
    requires forall i :: 0 <= i < |es| ==> es[i].fields.timestamp.zone.Utc?
    ensures Readable(RowsOf(es)) && Entries(RowsOf(es)) == es
  {
    hide ReadRow, ToRow, Hex;
    forall i | 0 <= i < |es|
      ensures ReadRow(RowsOf(es)[i]) == Some(es[i])
    {
      RowReadsBack(es[i], Utc);
    }
  }

  /** The history up to a signing, and the signing, exist as a table of rows. */
  lemma SigningHasATable(c: Crypto, es: seq<Event>, a: Attempt) returns (rows: seq<ReceiptRow>)
    requires Run(c, INITIAL, es).Some? && a in Run(c, INITIAL, es).value.attempts
    ensures var s := Run(c, INITIAL, es).value;
      && a.at <= |s.committed|
      && Readable(rows) && Entries(rows) == s.committed[..a.at] + [a.entry]
      && !Forged(c, Entries(rows), s.attempts)
  {
    hide Step, Holds, SessionOk, OrderById, HashBroken, ReadRow, HeadAt, RowsOf, UniqueSequenceIds;
    RunKeepsInvariant(c, es);
    RunSignsInUtc(c, es);
    var s := Run(c, INITIAL, es).value;
    assert SignedAt(c, s.committed, a);
    var table := s.committed[..a.at] + [a.entry];
    forall i | 0 <= i < |table|
      ensures WasSigned(table[i], s.attempts) && table[i].fields.timestamp.zone.Utc?
    {
      var b := if i < a.at then Attempt(i, s.committed[i]) else a;
      assert b in s.attempts && b.entry == table[i];
    }
    RowsOfReadBack(table);
    rows := RowsOf(table);
  }

  /** Every table `verify_chain` accepts, forgeries aside, is a prefix of the history. */
  ghost predicate OnlyPrefixesAccepted(c: Crypto, s: State) {
    forall rows :: Accepted(c, rows) && Readable(rows) && !Forged(c, Entries(rows), s.attempts) ==>
      Entries(rows) <= s.committed
  }

  /** Absent a hash break, that holds exactly when no signing was lost. */
  lemma OnlyPrefixesIff(c: Crypto, es: seq<Event>)
    requires SoundSigner(c) && Run(c, INITIAL, es).Some?
    requires !HashBroken(c, AllEntries(Run(c, INITIAL, es).value.attempts))
    ensures var s := Run(c, INITIAL, es).value; NothingLost(s) <==> OnlyPrefixesAccepted(c, s)
  {
    hide Run, Accepted, HashBroken, Forged, ReadRow, SoundSigner;
    var s := Run(c, INITIAL, es).value;
    if NothingLost(s) {
      forall rows | Accepted(c, rows) && Readable(rows) && !Forged(c, Entries(rows), s.attempts)
        ensures Entries(rows) <= s.committed
      {
        AcceptedIsPrefixAfterCleanRun(c, es, rows);
      }
    } else {
      var a :| a in s.attempts && !(a.at < |s.committed| && a.entry == s.committed[a.at]);
      var rows := SigningHasATable(c, es, a);
      LostSigningIsAccepted(c, es, a, rows);
    }
  }

  /* ---- In terms of the trace ---- */

  /** The session has signed and not yet committed. */
  predicate HoldsSigning(s: State, r: nat) {
    r in s.sessions && (s.sessions[r].Signed? || s.sessions[r].Flushed?)
  }

  /** No abort hits a session that has signed. */
  ghost predicate NeverAbortsSigned(c: Crypto, es: seq<Event>)
    requires Run(c, INITIAL, es).Some?
    decreases |es|
  {
    es == [] ||
    (&& NeverAbortsSigned(c, es[..|es| - 1])
     && (es[|es| - 1].Abort? ==> !HoldsSigning(Run(c, INITIAL, es[..|es| - 1]).value, es[|es| - 1].session)))
  }

  /** The signing is committed in its place, or an open session still holds it. */
  ghost predicate AccountedFor(s: State, a: Attempt) {
    || (a.at < |s.committed| && a.entry == s.committed[a.at])
    || (a.at == |s.committed| && exists r :: HoldsSigning(s, r) && s.sessions[r].entry == a.entry)
  }

  ghost predicate AllAccountedFor(s: State) {
    forall a :: a in s.attempts ==> AccountedFor(s, a)
  }

  lemma StepKeepsAccounts(c: Crypto, s: State, e: Event)
    requires Invariant(c, s) && AllAccountedFor(s) && Step(c, s, e).Some?
    requires e.Abort? ==> !HoldsSigning(s, e.session)
    ensures AllAccountedFor(Step(c, s, e).value)
  {
    hide Recorded, Holds, OrderById, UniqueSequenceIds, SequenceIdTaken, SignReceipt, NewReceipt, ReadRow, Link,
         HeadAt, ToRow;
    var u := Step(c, s, e).value;
    forall a | a in u.attempts
      ensures AccountedFor(u, a)
    {
      if a in s.attempts {
        OneAccountKept(c, s, e, a);
      } else {
        assert HoldsSigning(u, e.session) && u.sessions[e.session].entry == a.entry;
      }
    }
  }

  /** Only one session holds the lock, so only it can hold a signing. */
  lemma OneAccountKept(c: Crypto, s: State, e: Event, a: Attempt)
    requires (forall r :: r in s.sessions ==> SessionOk(c, s, r)) && AccountedFor(s, a) && Step(c, s, e).Some?
    requires e.Abort? ==> !HoldsSigning(s, e.session)
    ensures AccountedFor(Step(c, s, e).value, a)
  {
    hide SequenceIdTaken, SignReceipt, NewReceipt, ReadRow, Link, ToRow;
    var u := Step(c, s, e).value;
    assert e.Sign? ==> SessionOk(c, s, e.session);
    if a.at == |s.committed| {
      var r :| HoldsSigning(s, r) && s.sessions[r].entry == a.entry;
      assert SessionOk(c, s, r);
      if e.Commit? {
        assert SessionOk(c, s, e.session);
        assert u.committed[a.at] == a.entry;
      } else {
        assert HoldsSigning(u, r) && u.sessions[r].entry == a.entry;
      }
    }
  }

  lemma {:induction false} SigningsAreAccountedFor(c: Crypto, es: seq<Event>)
    requires Run(c, INITIAL, es).Some? && NeverAbortsSigned(c, es)
    ensures AllAccountedFor(Run(c, INITIAL, es).value)
    decreases |es|
  {
    hide Step, Invariant, AccountedFor;
    if es != [] {
      SigningsAreAccountedFor(c, es[..|es| - 1]);
      RunKeepsInvariant(c, es[..|es| - 1]);
      StepKeepsAccounts(c, Run(c, INITIAL, es[..|es| - 1]).value, es[|es| - 1]);
    }
  }

  lemma AbortForgets(c: Crypto, s: State, r: nat)
    requires Invariant(c, s) && HoldsSigning(s, r)
    ensures Step(c, s, Abort(r)).Some?
    ensures var u := Step(c, s, Abort(r)).value;
      u.attempts == s.attempts && u.committed == s.committed
        && Attempt(|s.committed|, s.sessions[r].entry) in s.attempts
  {
    hide Recorded, Holds, OrderById, UniqueSequenceIds, ReadRow, HeadAt, SequenceIdTaken;
    assert SessionOk(c, s, r);
  }

  /** Aborting a session that has signed loses the signing: some table outside the
      history is then accepted without forgery. */
  lemma LateAbortLosesASigning(c: Crypto, es: seq<Event>, r: nat) returns (rows: seq<ReceiptRow>)
    requires SoundSigner(c) && Run(c, INITIAL, es).Some? && HoldsSigning(Run(c, INITIAL, es).value, r)
    ensures Run(c, INITIAL, es + [Abort(r)]).Some?
    ensures var s := Run(c, INITIAL, es + [Abort(r)]).value;
      && !NothingLost(s)
      && Accepted(c, rows) && Readable(rows) && !Forged(c, Entries(rows), s.attempts) && !(Entries(rows) <= s.committed)
  {
    hide Run, Step, Invariant, Accepted, Forged, ReadRow, SoundSigner;
    RunKeepsInvariant(c, es);
    RunThen(c, INITIAL, es, Abort(r));
    var s := Run(c, INITIAL, es).value;
    AbortForgets(c, s, r);
    var a := Attempt(|s.committed|, s.sessions[r].entry);
    rows := SigningHasATable(c, es + [Abort(r)], a);
    LostSigningIsAccepted(c, es + [Abort(r)], a, rows);
  }

  /** Every signing of the run uses a sequence id no earlier signing used, as fresh
      random ids do. */
  ghost predicate FreshIds(c: Crypto, es: seq<Event>)
    requires Run(c, INITIAL, es).Some?
    decreases |es|
  {
    es == [] ||
    (&& FreshIds(c, es[..|es| - 1])
     && (es[|es| - 1].Sign? ==> IdIsFresh(Run(c, INITIAL, es[..|es| - 1]).value, es[|es| - 1].sequenceId)))
  }

  ghost predicate IdIsFresh(s: State, sequenceId: string) {
    forall a :: a in s.attempts ==> a.entry.fields.sequenceId != sequenceId
  }

  ghost predicate IdsIdentify(attempts: set<Attempt>) {
    forall a, b :: a in attempts && b in attempts && a.entry.fields.sequenceId == b.entry.fields.sequenceId ==> a == b
  }

  lemma {:induction false} FreshIdsIdentify(c: Crypto, es: seq<Event>)
    requires Run(c, INITIAL, es).Some? && FreshIds(c, es)
    ensures IdsIdentify(Run(c, INITIAL, es).value.attempts)
    decreases |es|
  {
    hide UnsignedBytes, Link, PayloadHash, SequenceIdTaken, ToRow;
    if es != [] {
      FreshIdsIdentify(c, es[..|es| - 1]);
    }
  }

  /** A signing that is neither committed nor held by any session. */
  ghost predicate Abandoned(s: State, a: Attempt) {
    && a in s.attempts
    && a.entry !in s.committed
    && forall r :: HoldsSigning(s, r) ==> s.sessions[r].entry != a.entry
  }

  lemma AbandonedStays(c: Crypto, s: State, e: Event, a: Attempt)
    requires Abandoned(s, a) && Step(c, s, e).Some?
    requires e.Sign? ==> IdIsFresh(s, e.sequenceId)
    ensures Abandoned(Step(c, s, e).value, a)
  {
    hide SequenceIdTaken, Link, ToRow, UnsignedBytes, PayloadHash;
    var u := Step(c, s, e).value;
    forall r | HoldsSigning(u, r)
      ensures u.sessions[r].entry != a.entry
    {
      assert HoldsSigning(s, r) || (e.Sign? && r == e.session);
    }
    assert e.Commit? ==> HoldsSigning(s, e.session);
  }

  /** With ids that identify signings, aborting a session that has signed abandons it. */
  lemma AbortAbandons(c: Crypto, s: State, r: nat)
    requires Invariant(c, s) && IdsIdentify(s.attempts) && HoldsSigning(s, r)
    ensures Step(c, s, Abort(r)).Some?
    ensures Abandoned(Step(c, s, Abort(r)).value, Attempt(|s.committed|, s.sessions[r].entry))
  {
    hide Holds, OrderById, UniqueSequenceIds, ReadRow, HeadAt, SequenceIdTaken, SignedAt;
    AbortForgets(c, s, r);
    var a := Attempt(|s.committed|, s.sessions[r].entry);
    assert SessionOk(c, s, r);
    forall k | 0 <= k < |s.committed|
      ensures s.committed[k] != a.entry
    {
      assert Attempt(k, s.committed[k]) in s.attempts;
    }
    forall q | q in s.sessions && HoldsSigning(s, q)
      ensures q == r
    {
      assert SessionOk(c, s, q);
    }
  }

  /** Once some abort hit a session that had signed, a signing is abandoned for good. */
  lemma {:induction false} LateAbortAbandons(c: Crypto, es: seq<Event>) returns (a: Attempt)
    requires Run(c, INITIAL, es).Some? && FreshIds(c, es) && !NeverAbortsSigned(c, es)
    ensures Abandoned(Run(c, INITIAL, es).value, a)
    decreases |es|
  {
    hide Step, Invariant, Abandoned, IdsIdentify, HoldsSigning, IdIsFresh;
    var front, last := es[..|es| - 1], es[|es| - 1];
    var s := Run(c, INITIAL, front).value;
    if NeverAbortsSigned(c, front) {
      RunKeepsInvariant(c, front);
      FreshIdsIdentify(c, front);
      AbortAbandons(c, s, last.session);
      a := Attempt(|s.committed|, EntryHeld(s, last.session));
    } else {
      a := LateAbortAbandons(c, front);
      AbandonedStays(c, s, last, a);
    }
  }

  function EntryHeld(s: State, r: nat): Sealed
    requires HoldsSigning(s, r)
  {
    s.sessions[r].entry
  }

  /** In terms of the trace: a run with fresh ids has lost no signing exactly when no
      abort hit a session that had signed, and no session that has signed is open. */
  lemma NothingLostIff(c: Crypto, es: seq<Event>)
    requires Run(c, INITIAL, es).Some? && FreshIds(c, es)
    ensures var s := Run(c, INITIAL, es).value;
      NothingLost(s) <==> NeverAbortsSigned(c, es) && forall r :: !HoldsSigning(s, r)
  {
    hide Run, NeverAbortsSigned, FreshIds;
    RunKeepsInvariant(c, es);
    var s := Run(c, INITIAL, es).value;
    if NeverAbortsSigned(c, es) {
      SigningsAreAccountedFor(c, es);
      AccountsSettled(c, s);
    } else {
      var a := LateAbortAbandons(c, es);
      assert !(a.at < |s.committed| && a.entry == s.committed[a.at]);
    }
  }

  lemma AccountsSettled(c: Crypto, s: State)
    requires Invariant(c, s) && AllAccountedFor(s)
    ensures NothingLost(s) <==> forall r :: !HoldsSigning(s, r)
  {
    hide Holds, OrderById, UniqueSequenceIds, ReadRow, HeadAt, SequenceIdTaken, Recorded;
    forall r | HoldsSigning(s, r)
      ensures !NothingLost(s)
    {
      assert SessionOk(c, s, r);
      assert Attempt(|s.committed|, s.sessions[r].entry) in s.attempts;
    }
    assert forall a :: a in s.attempts ==> AccountedFor(s, a);
  }

  /** So, absent a hash break, every accepted unforged table is a prefix of the
      history exactly under that condition on the trace. */
  lemma OnlyPrefixesTraceIff(c: Crypto, es: seq<Event>)
    requires SoundSigner(c) && Run(c, INITIAL, es).Some? && FreshIds(c, es)
    requires !HashBroken(c, AllEntries(Run(c, INITIAL, es).value.attempts))
    ensures var s := Run(c, INITIAL, es).value;
      OnlyPrefixesAccepted(c, s) <==> NeverAbortsSigned(c, es) && forall r :: !HoldsSigning(s, r)
  {
    hide *;
    OnlyPrefixesIff(c, es);
    NothingLostIff(c, es);
  }

  /** A session that ends hands the lock over: whoever waits can then take it, and
      reads the head of the history so far. */
  lemma LockIsHandedOver(c: Crypto, s: State, e: Event, waiting: nat)
    requires Invariant(c, s) && (e.Commit? || e.Abort?) && Step(c, s, e).Some? && s.lockedBy == Some(e.session)
    requires waiting in s.sessions && s.sessions[waiting].Waiting? && waiting != e.session
    ensures var u := Step(c, s, e).value; var v := Step(c, u, AcquireLock(waiting));
      && v.Some? && v.value.lockedBy == Some(waiting) && waiting in v.value.sessions
      && v.value.sessions[waiting] == Locked(s.sessions[waiting].call, HeadAt(c, u.committed, |u.committed|))
  {
    StepKeepsInvariant(c, s, e);
    HeadIsCurrent(c, Step(c, s, e).value);
    EndingFreesTheLock(c, s, e, waiting);
    hide Invariant, Step, HeadAt;
  }

  lemma EndingFreesTheLock(c: Crypto, s: State, e: Event, waiting: nat)
    requires (e.Commit? || e.Abort?) && Step(c, s, e).Some? && s.lockedBy == Some(e.session)
    requires waiting in s.sessions && s.sessions[waiting].Waiting? && waiting != e.session
    ensures var u := Step(c, s, e).value; var v := Step(c, u, AcquireLock(waiting));
      && v.Some? && v.value.lockedBy == Some(waiting) && waiting in v.value.sessions
      && v.value.sessions[waiting] == Locked(s.sessions[waiting].call, u.chainHead)
  {
    hide SequenceIdTaken, SignReceipt, NewReceipt, ToRow, Link, Hex;
  }

  lemma HeadIsCurrent(c: Crypto, s: State)
    requires Invariant(c, s)
    ensures s.chainHead == HeadAt(c, s.committed, |s.committed|)
  {
  }

  /** What an operator can see: when no abort hit a session that had signed, and none
      is open that has, accepted means a prefix of the history. */
  lemma AcceptedIsPrefixWithoutLateAborts(c: Crypto, es: seq<Event>, rows: seq<ReceiptRow>)
    requires SoundSigner(c) && Run(c, INITIAL, es).Some? && NeverAbortsSigned(c, es)
    requires forall r :: !HoldsSigning(Run(c, INITIAL, es).value, r)
    ensures var s := Run(c, INITIAL, es).value;
      && (Readable(rows) && Entries(rows) <= s.committed ==> Accepted(c, rows))
      && (Accepted(c, rows) ==>
            && Readable(rows)
            && (|| Entries(rows) <= s.committed
                || HashBroken(c, AllEntries(s.attempts))
                || Forged(c, Entries(rows), s.attempts)))
  {
    hide Run, Accepted, HashBroken, Forged, ReadRow, SoundSigner, NeverAbortsSigned, HoldsSigning;
    SigningsAreAccountedFor(c, es);
    var s := Run(c, INITIAL, es).value;
    assert forall a :: a in s.attempts ==> AccountedFor(s, a);
    AcceptedIsPrefixAfterCleanRun(c, es, rows);
  }

  /* ---- One transaction, undisturbed ---- */

  lemma RunThen(c: Crypto, s: State, es: seq<Event>, e: Event)
    requires Run(c, s, es).Some?
    ensures Run(c, s, es + [e]) == Step(c, Run(c, s, es).value, e)
  {
    hide Step;
    assert (es + [e])[..|es|] == es;
  }

  /** The two tables, as one replica finds them with no other transaction open. */
  class Database {
    var table: map<nat, ReceiptRow>
    var nextId: nat
    var chainHead: string
    ghost var committed: seq<Sealed>
    ghost var attempts: set<Attempt>

    ghost function Snapshot(): State
      reads this
    {
      State(table, nextId, chainHead, None, map[], committed, attempts)
    }

    /** The schema migration inserts the genesis chain head. */
    constructor ()
      ensures Snapshot() == INITIAL
    {
      table, nextId, chainHead := map[], 1, GENESIS_HASH;
      committed, attempts := [], {};
    }
  }

  datatype Ending = Commits | RollsBack

  /** The protocol steps of one `record` call that meets no other. */
  function Transaction(call: Call, sequenceId: string, now: Timestamp, zone: Zone, taken: bool,
                       ending: Ending): seq<Event> {
    [Begin(0, call), AcquireLock(0), Sign(0, sequenceId, now)]
    + (if taken then [LoseId, Abort(0)] else [Flush(0, zone), if ending.Commits? then Commit(0) else Abort(0)])
  }

  function SignedBy(c: Crypto, s: State, call: Call, sequenceId: string, now: Timestamp): Sealed {
    SignReceipt(c, NewReceipt(c, call, s.chainHead, sequenceId, now))
  }

  /** What one undisturbed `record` call leaves behind. */
  ghost function RecordEffect(c: Crypto, s: State, entry: Sealed, zone: Zone, ending: Ending): State {
    var signed := s.(attempts := s.attempts + {Attempt(|s.committed|, entry)});
    if SequenceIdTaken(s.table, entry.fields.sequenceId) || ending.RollsBack? then signed.(nextId := s.nextId + 1)
    else
      signed.(nextId := s.nextId + 1,
              table := s.table[s.nextId := ToRow(entry.fields, Hex(entry.signature), zone)],
              chainHead := Link(c, entry),
              committed := s.committed + [entry])
  }

  lemma RunToSigned(c: Crypto, s: State, call: Call, sequenceId: string, now: Timestamp)
    requires s.sessions == map[] && s.lockedBy.None? && now.zone.Utc?
    ensures var entry := SignedBy(c, s, call, sequenceId, now);
      Run(c, s, [Begin(0, call), AcquireLock(0), Sign(0, sequenceId, now)])
      == Some(s.(sessions := map[0 := Signed(entry)], lockedBy := Some(0),
                 attempts := s.attempts + {Attempt(|s.committed|, entry)}))
  {
    hide UnsignedBytes, PayloadHash;
    var e1, e2, e3 := Begin(0, call), AcquireLock(0), Sign(0, sequenceId, now);
    assert [] + [e1] == [e1] && [e1] + [e2] == [e1, e2] && [e1, e2] + [e3] == [e1, e2, e3];
    RunThen(c, s, [], e1);
    RunThen(c, s, [e1], e2);
    RunThen(c, s, [e1, e2], e3);
    assert Run(c, s, [e1, e2, e3]).value.sessions == map[0 := Signed(SignedBy(c, s, call, sequenceId, now))];
  }

  /** The class method below and the protocol agree. */
  lemma TransactionSteps(c: Crypto, s: State, call: Call, sequenceId: string, now: Timestamp, zone: Zone,
                         ending: Ending)
    requires s.sessions == map[] && s.lockedBy.None? && now.zone.Utc?
    ensures var taken := SequenceIdTaken(s.table, sequenceId);
      Run(c, s, Transaction(call, sequenceId, now, zone, taken, ending))
      == Some(RecordEffect(c, s, SignedBy(c, s, call, sequenceId, now), zone, ending))
  {
    hide UnsignedBytes, PayloadHash, Link, ToRow, Hex, Run, SequenceIdTaken;
    RunToSigned(c, s, call, sequenceId, now);
    var first := [Begin(0, call), AcquireLock(0), Sign(0, sequenceId, now)];
    if SequenceIdTaken(s.table, sequenceId) {
      RunThen(c, s, first, LoseId);
      RunThen(c, s, first + [LoseId], Abort(0));
      assert (first + [LoseId]) + [Abort(0)] == first + [LoseId, Abort(0)];
      assert Run(c, s, first + [LoseId]).value.sessions - {0} == map[];
    } else {
      var insert := Flush(0, zone);
      var last := if ending.Commits? then Commit(0) else Abort(0);
      RunThen(c, s, first, insert);
      RunThen(c, s, first + [insert], last);
      assert (first + [insert]) + [last] == first + [insert, last];
      assert Run(c, s, first + [insert]).value.sessions - {0} == map[];
    }
  }

  class Ledger {
    const crypto: Crypto
    const db: Database

    constructor (crypto: Crypto, db: Database)
      ensures this.crypto == crypto && this.db == db
    {
      this.crypto, this.db := crypto, db;
    }

    /** `record`, run alone: `None` when the transaction did not commit. */
    method Record(call: Call, sequenceId: string, now: Timestamp, zone: Zone, ending: Ending)
      returns (receipt: Option<ExecutionReceipt>)
      requires now.zone.Utc?
      modifies db
      ensures var entry := SignedBy(crypto, old(db.Snapshot()), call, sequenceId, now);
        && db.Snapshot() == RecordEffect(crypto, old(db.Snapshot()), entry, zone, ending)
        && (receipt == if SequenceIdTaken(old(db.table), sequenceId) || ending.RollsBack? then None
                       else Some(ExecutionReceipt(entry.fields, Some(Hex(entry.signature)))))
        && IsReceiptOf(crypto, call, old(db.chainHead), sequenceId, now, entry)
    {
      SignedIsReceiptOf(crypto, call, db.chainHead, sequenceId, now);
      hide IsReceiptOf;
      var payloadHash := PayloadHash(crypto, call.request);
      var previousHash := db.chainHead;
      var fields := Receipt(sequenceId, now, call.spiffeId, call.decision, call.reason, payloadHash, previousHash,
        call.enforced);
      var unsigned := UnsignedBytes(fields);
      var signature := crypto.sign(unsigned);
      receipt := Some(ExecutionReceipt(fields, Some(Hex(signature))));
      hide UnsignedBytes, ToRow, Hex, PayloadHash;
      db.attempts := db.attempts + {Attempt(|db.committed|, Sealed(fields, signature))};
      var id := db.nextId;
      db.nextId := db.nextId + 1;
      if SequenceIdTaken(db.table, sequenceId) {
        return None;                                        // IntegrityError rolls back
      }
      if ending.RollsBack? {
        return None;
      }
      db.table := db.table[id := ToRow(fields, Hex(signature), zone)];
      db.chainHead := crypto.sha256(unsigned + signature);
      db.committed := db.committed + [Sealed(fields, signature)];
    }
  }
}

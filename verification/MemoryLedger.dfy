/**
 `Ed25519ChainLedger`: the same chain in one process. Nothing is awaited under
 its lock, so concurrent `record` calls are serial.
 */
module MemoryLedger {
  import opened Wrappers
  import opened Receipts
  import opened Chain
  import opened TamperEvidence
  import opened PostgresLedger

  ghost function AttemptsOf(history: seq<Sealed>): set<Attempt> {
    set k | 0 <= k < |history| :: Attempt(k, history[k])
  }

  lemma RecordedAppend(c: Crypto, history: seq<Sealed>, receipt: Receipt)
    requires Recorded(c, history, AttemptsOf(history)) && receipt.previousHash == HeadAt(c, history, |history|)
    ensures var longer := history + [SignReceipt(c, receipt)]; Recorded(c, longer, AttemptsOf(longer))
  {
    hide UnsignedBytes, Link;
    var e := SignReceipt(c, receipt);
    var longer := history + [e];
    forall a | a in AttemptsOf(longer)
      ensures SignedAt(c, longer, a)
    {
      assert HeadAt(c, longer, a.at) == HeadAt(c, history, a.at);
      assert a.at < |history| ==> a in AttemptsOf(history) && SignedAt(c, history, a);
    }
  }

  class Ed25519ChainLedger {
    const crypto: Crypto
    var previousHash: string
    ghost var history: seq<Sealed>

    ghost predicate Valid()
      reads this
    {
      && previousHash == HeadAt(crypto, history, |history|)
      && Recorded(crypto, history, AttemptsOf(history))
      && forall i :: 0 <= i < |history| ==> history[i].fields.timestamp.zone.Utc?
    }

    constructor (crypto: Crypto)
      ensures Valid() && history == [] && this.crypto == crypto
    {
      this.crypto, previousHash, history := crypto, GENESIS_HASH, [];
    }

    method Record(call: Call, sequenceId: string, now: Timestamp) returns (receipt: ExecutionReceipt)
      requires Valid() && now.zone.Utc?
      modifies this
      ensures Valid()
      ensures history == old(history)
          + [SignReceipt(crypto, NewReceipt(crypto, call, old(previousHash), sequenceId, now))]
      ensures IsReceiptOf(crypto, call, old(previousHash), sequenceId, now, history[|history| - 1])
      ensures receipt == ExecutionReceipt(history[|history| - 1].fields, Some(Hex(history[|history| - 1].signature)))
      ensures previousHash == Link(crypto, history[|history| - 1])
    {
      var payloadHash := PayloadHash(crypto, call.request);
      var fields := Receipt(sequenceId, now, call.spiffeId, call.decision, call.reason, payloadHash, previousHash,
        call.enforced);
      RecordedAppend(crypto, history, fields);
      SignedIsReceiptOf(crypto, call, previousHash, sequenceId, now);
      hide Recorded, UnsignedBytes, Hex, IsReceiptOf;
      var unsigned := UnsignedBytes(fields);
      var signature := crypto.sign(unsigned);
      receipt := ExecutionReceipt(fields, Some(Hex(signature)));
      previousHash := crypto.sha256(unsigned + signature);
      history := history + [Sealed(fields, signature)];
    }
  }

  /** Rows holding the receipts it returned verify, and nothing else does but a prefix of them. */
  lemma HistoryIsExact(c: Crypto, history: seq<Sealed>, rows: seq<ReceiptRow>)
    requires SoundSigner(c) && Recorded(c, history, AttemptsOf(history))
    ensures Readable(rows) && Entries(rows) <= history ==> Accepted(c, rows)
    ensures Accepted(c, rows) ==>
      Readable(rows) && (Entries(rows) <= history
        || HashBroken(c, AllEntries(AttemptsOf(history))) || Forged(c, Entries(rows), AttemptsOf(history)))
  {
    hide Recorded, Accepted, HashBroken, Forged, ReadRow;
    AcceptedIffPrefix(c, history, AttemptsOf(history), rows);
  }
}

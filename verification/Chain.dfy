/**
 The hash chain of receipts: `verify_chain`, and exactly which tables it accepts.

 SHA-256 and Ed25519 are uninterpreted functions. Nothing is assumed about
 collisions or forgeries: where security rests on them, the conclusion names
 the broken primitive instead.
 */
module Chain {
  import opened Wrappers
  import opened CanonicalJson
  import opened Receipts

  const SIXTEEN_ZEROS := "0000000000000000"

  const GENESIS_HASH: string := SIXTEEN_ZEROS + SIXTEEN_ZEROS + SIXTEEN_ZEROS + SIXTEEN_ZEROS

  datatype Crypto = Crypto(
    sha256: seq<byte> -> string,                    // the hex digest
    sign: seq<byte> -> seq<byte>,
    verify: (seq<byte>, seq<byte>) -> bool)         // signature, message

  /** Section 5.1.6 of RFC 8032: a signature is 64 octets, and it verifies. */
  ghost predicate SoundSigner(c: Crypto) {
    forall m :: |c.sign(m)| == 64 && c.verify(c.sign(m), m)
  }

  /** A receipt together with the octets of its signature. */
  datatype Sealed = Sealed(fields: Receipt, signature: seq<byte>)

  function Preimage(e: Sealed): seq<byte> {
    UnsignedBytes(e.fields) + e.signature
  }

  function Link(c: Crypto, e: Sealed): string {
    c.sha256(Preimage(e))
  }

  /** The hash the entry after the first `k` must name. */
  function HeadAt(c: Crypto, es: seq<Sealed>, k: nat): string
    requires k <= |es|
  {
    if k == 0 then GENESIS_HASH else Link(c, es[k - 1])
  }

  /* ---- verify_chain ---- */

  datatype ChainVerification =
    | Report(valid: bool, receiptsChecked: nat, firstBrokenSequenceId: Option<string>)
    | ValueError

  function VerifyFrom(c: Crypto, expected: string, checked: nat, rows: seq<ReceiptRow>): ChainVerification
    decreases |rows|
  {
    if rows == [] then Report(true, checked, None)
    else
      match ToDomain(rows[0])
      case None => ValueError
      case Some(receipt) =>
        if receipt.fields.previousHash != expected then Report(false, checked, Some(receipt.fields.sequenceId))
        else
          match FromHex(rows[0].signature)
          case None => ValueError
          case Some(signature) =>
            var unsigned := UnsignedBytes(receipt.fields);
            if !c.verify(signature, unsigned) then Report(false, checked, Some(receipt.fields.sequenceId))
            else VerifyFrom(c, c.sha256(unsigned + signature), checked + 1, rows[1..])
  }

  method VerifyChain(c: Crypto, rows: seq<ReceiptRow>) returns (result: ChainVerification)
    ensures result == VerifyFrom(c, GENESIS_HASH, 0, rows)
    ensures Readable(rows) ==> result.Report?
    ensures result.Report? && result.valid ==>
      Readable(rows) && LinkedFrom(c, GENESIS_HASH, Entries(rows)) && result.receiptsChecked == |rows|
  {
    VerdictMeans(c, rows);
    hide Readable, LinkedFrom, Entries;
    var expected, checked := GENESIS_HASH, 0;
    while checked < |rows|
      invariant checked <= |rows|
      invariant VerifyFrom(c, GENESIS_HASH, 0, rows) == VerifyFrom(c, expected, checked, rows[checked..])
    {
      var row := rows[checked];
      ghost var remaining := rows[checked..];
      assert remaining[0] == row && remaining[1..] == rows[checked + 1..];
      var receipt := ToDomain(row);
      if receipt.None? {
        return ValueError;
      }
      if receipt.value.fields.previousHash != expected {
        return Report(false, checked, Some(receipt.value.fields.sequenceId));
      }
      var unsigned := UnsignedBytes(receipt.value.fields);
      var signature := FromHex(row.signature);
      if signature.None? {
        return ValueError;
      }
      if !c.verify(signature.value, unsigned) {
        return Report(false, checked, Some(receipt.value.fields.sequenceId));
      }
      expected := c.sha256(unsigned + signature.value);
      checked := checked + 1;
    }
    assert rows[checked..] == [];
    return Report(true, checked, None);
  }

  /* ---- What acceptance means ---- */

  /** What a row holds once decoded, when it can be decoded. */
  function ReadRow(row: ReceiptRow): Option<Sealed> {
    match (ToDomain(row), FromHex(row.signature))
    case (Some(receipt), Some(signature)) => Some(Sealed(receipt.fields, signature))
    case _ => None
  }

  predicate Readable(rows: seq<ReceiptRow>) {
    forall i :: 0 <= i < |rows| ==> ReadRow(rows[i]).Some?
  }

  function Entries(rows: seq<ReceiptRow>): seq<Sealed>
    requires Readable(rows)
  {
    seq(|rows|, i requires 0 <= i < |rows| => ReadRow(rows[i]).value)
  }

  /** Every entry names the hash of the one before it and carries a valid signature. */
  ghost predicate LinkedFrom(c: Crypto, start: string, es: seq<Sealed>) {
    forall i :: 0 <= i < |es| ==> Fits(c, Prior(c, start, es, i), es[i])
  }

  function Prior(c: Crypto, start: string, es: seq<Sealed>, i: nat): string
    requires i <= |es|
  {
    if i == 0 then start else Link(c, es[i - 1])
  }

  ghost predicate Fits(c: Crypto, head: string, e: Sealed) {
    e.fields.previousHash == head && c.verify(e.signature, UnsignedBytes(e.fields))
  }

  ghost predicate Accepted(c: Crypto, rows: seq<ReceiptRow>) {
    VerifyFrom(c, GENESIS_HASH, 0, rows) == Report(true, |rows|, None)
  }

  /** One row more: the first row must fit, and the rest resume from its hash. */
  lemma VerifyStep(c: Crypto, expected: string, checked: nat, rows: seq<ReceiptRow>)
    requires rows != []
    ensures var r := VerifyFrom(c, expected, checked, rows);
      if ReadRow(rows[0]).Some? && Fits(c, expected, ReadRow(rows[0]).value)
      then r == VerifyFrom(c, Link(c, ReadRow(rows[0]).value), checked + 1, rows[1..])
      else r == VerifyFrom(c, expected, checked, [rows[0]])
           && (r.ValueError? || r == Report(false, checked, Some(rows[0].sequenceId)))
  {
    hide UnsignedBytes, FromHex;
  }

  lemma VerifyNothing(c: Crypto, expected: string, checked: nat)
    ensures VerifyFrom(c, expected, checked, []) == Report(true, checked, None)
  {
  }

  lemma {:induction false} ReportCounts(c: Crypto, expected: string, checked: nat, rows: seq<ReceiptRow>)
    ensures var r := VerifyFrom(c, expected, checked, rows);
      r.Report? ==>
        && checked <= r.receiptsChecked <= checked + |rows|
        && r.valid == (r.receiptsChecked == checked + |rows|)
        && (r.valid ==> r.firstBrokenSequenceId.None?)
        && (!r.valid ==> r.firstBrokenSequenceId == Some(rows[r.receiptsChecked - checked].sequenceId))
    decreases |rows|
  {
    hide VerifyFrom, ReadRow, UnsignedBytes;
    VerifyNothing(c, expected, checked);
    if rows != [] {
      VerifyStep(c, expected, checked, rows);
    }
    if rows != [] && ReadRow(rows[0]).Some? {
      ReportCounts(c, Link(c, ReadRow(rows[0]).value), checked + 1, rows[1..]);
    }
  }

  /** From any starting hash, a table whose rows can all be decoded is reported on:
      a broken link or a bad signature never raises. */
  lemma {:induction false} ReadableIsReported(c: Crypto, start: string, checked: nat, rows: seq<ReceiptRow>)
    requires Readable(rows)
    ensures VerifyFrom(c, start, checked, rows).Report?
    decreases |rows|
  {
    hide UnsignedBytes;
    if rows != [] {
      assert ReadRow(rows[0]).Some?;
      ReadableIsReported(c, Link(c, ReadRow(rows[0]).value), checked + 1, rows[1..]);
    }
  }

  lemma EntriesCons(rows: seq<ReceiptRow>)
    requires rows != [] && Readable(rows)
    ensures Readable(rows[1..]) && Entries(rows) == [ReadRow(rows[0]).value] + Entries(rows[1..])
  {
    hide ReadRow;
  }

  lemma {:induction false} AcceptedFromIff(c: Crypto, start: string, checked: nat, rows: seq<ReceiptRow>)
    ensures VerifyFrom(c, start, checked, rows) == Report(true, checked + |rows|, None)
            <==> Readable(rows) && LinkedFrom(c, start, Entries(rows))
    decreases |rows|
  {
    hide VerifyFrom, ReadRow, UnsignedBytes;
    VerifyNothing(c, start, checked);
    if rows != [] {
      VerifyStep(c, start, checked, rows);
      assert Readable(rows) <==> ReadRow(rows[0]).Some? && Readable(rows[1..]);
      if ReadRow(rows[0]).Some? {
        AcceptedFromIff(c, Link(c, ReadRow(rows[0]).value), checked + 1, rows[1..]);
        if Readable(rows) {
          EntriesCons(rows);
          LinkedCons(c, start, ReadRow(rows[0]).value, Entries(rows[1..]));
        }
      }
    }
  }

  lemma LinkedCons(c: Crypto, start: string, e: Sealed, es: seq<Sealed>)
    ensures LinkedFrom(c, start, [e] + es) <==> Fits(c, start, e) && LinkedFrom(c, Link(c, e), es)
  {
    hide UnsignedBytes;
    var all := [e] + es;
    assert forall i :: 0 <= i < |es| ==>
      es[i] == all[i + 1] && Prior(c, Link(c, e), es, i) == Prior(c, start, all, i + 1);
    if LinkedFrom(c, start, all) {
      assert Fits(c, Prior(c, start, all, 0), all[0]);
      forall i | 0 <= i < |es|
        ensures Fits(c, Prior(c, Link(c, e), es, i), es[i])
      {
        assert Fits(c, Prior(c, start, all, i + 1), all[i + 1]);
      }
    }
    if Fits(c, start, e) && LinkedFrom(c, Link(c, e), es) {
      forall i | 0 <= i < |all|
        ensures Fits(c, Prior(c, start, all, i), all[i])
      {
        if i > 0 {
          assert Fits(c, Prior(c, Link(c, e), es, i - 1), es[i - 1]);
        }
      }
    }
  }

  lemma VerdictMeans(c: Crypto, rows: seq<ReceiptRow>)
    ensures var result := VerifyFrom(c, GENESIS_HASH, 0, rows);
      && (Readable(rows) ==> result.Report?)
      && (result.Report? && result.valid ==>
            Readable(rows) && LinkedFrom(c, GENESIS_HASH, Entries(rows)) && result.receiptsChecked == |rows|)
  {
    hide VerifyFrom, Readable, LinkedFrom, Entries;
    if Readable(rows) {
      ReadableIsReported(c, GENESIS_HASH, 0, rows);
    }
    ReportCounts(c, GENESIS_HASH, 0, rows);
    AcceptedIff(c, rows);
  }

  /** `verify_chain` accepts a table exactly when every row can be read and the
      entries form a signed chain from the genesis hash. */
  lemma AcceptedIff(c: Crypto, rows: seq<ReceiptRow>)
    ensures Accepted(c, rows) <==> Readable(rows) && LinkedFrom(c, GENESIS_HASH, Entries(rows))
  {
    hide VerifyFrom, ReadRow, UnsignedBytes;
    AcceptedFromIff(c, GENESIS_HASH, 0, rows);
  }

  function ResumeHash(c: Crypto, start: string, rows: seq<ReceiptRow>): string
  {
    if rows == [] then start
    else
      match ReadRow(rows[|rows| - 1])
      case Some(e) => Link(c, e)
      case None => start
  }

  /** Verifying a concatenation is verifying the first part, then resuming from its head hash. */
  lemma {:induction false} VerifyConcatenation(c: Crypto, start: string, checked: nat, front: seq<ReceiptRow>,
                                               back: seq<ReceiptRow>)
    ensures var r := VerifyFrom(c, start, checked, front);
      VerifyFrom(c, start, checked, front + back)
      == if r.Report? && r.valid then
           VerifyFrom(c, ResumeHash(c, start, front), checked + |front|, back)
         else r
    decreases |front|
  {
    hide VerifyFrom, ReadRow, UnsignedBytes;
    var r := VerifyFrom(c, start, checked, front);
    VerifyNothing(c, start, checked);
    if front == [] {
      assert front + back == back;
    } else {
      VerifyStep(c, start, checked, front);
      VerifyStep(c, start, checked, front + back);
      assert (front + back)[0] == front[0] && (front + back)[1..] == front[1..] + back;
      if ReadRow(front[0]).Some? && Fits(c, start, ReadRow(front[0]).value) {
        var next := Link(c, ReadRow(front[0]).value);
        VerifyConcatenation(c, next, checked + 1, front[1..], back);
        if r.Report? && r.valid {
          AcceptedIsReadable(c, start, checked, front);
          assert |front| > 1 ==> front[1..][|front| - 2] == front[|front| - 1];
          assert ResumeHash(c, start, front) == ResumeHash(c, next, front[1..]);
        }
      }
    }
  }

  lemma AcceptedIsReadable(c: Crypto, start: string, checked: nat, rows: seq<ReceiptRow>)
    requires var r := VerifyFrom(c, start, checked, rows); r.Report? && r.valid
    ensures Readable(rows) && LinkedFrom(c, start, Entries(rows))
  {
    hide VerifyFrom, ReadRow, UnsignedBytes;
    ReportCounts(c, start, checked, rows);
    AcceptedFromIff(c, start, checked, rows);
  }

  lemma PrefixAccepted(c: Crypto, rows: seq<ReceiptRow>, j: nat, k: nat)
    requires j <= k <= |rows| && Accepted(c, rows[..k])
    ensures Accepted(c, rows[..j])
  {
    hide VerifyFrom, ReadRow, UnsignedBytes;
    AcceptedIff(c, rows[..k]);
    AcceptedIff(c, rows[..j]);
    assert forall i :: 0 <= i < j ==> rows[..j][i] == rows[..k][i];
    assert Entries(rows[..j]) == Entries(rows[..k])[..j];
  }

  /** A report counts the longest valid prefix, and names the very next row. */
  lemma LongestValidPrefix(c: Crypto, rows: seq<ReceiptRow>, k: nat)
    requires k <= |rows|
    ensures var r := VerifyFrom(c, GENESIS_HASH, 0, rows);
      r.Report? ==>
        && r.receiptsChecked <= |rows|
        && (Accepted(c, rows[..k]) <==> k <= r.receiptsChecked)
        && r.firstBrokenSequenceId
           == if r.receiptsChecked < |rows| then Some(rows[r.receiptsChecked].sequenceId) else None
  {
    hide VerifyFrom, ReadRow, UnsignedBytes;
    var r := VerifyFrom(c, GENESIS_HASH, 0, rows);
    ReportCounts(c, GENESIS_HASH, 0, rows);
    VerifyConcatenation(c, GENESIS_HASH, 0, rows[..k], rows[k..]);
    assert rows[..k] + rows[k..] == rows;
    ReportCounts(c, GENESIS_HASH, 0, rows[..k]);
    if Accepted(c, rows[..k]) && r.Report? {
      ReportCounts(c, ResumeHash(c, GENESIS_HASH, rows[..k]), k, rows[k..]);
    }
  }

  /** The verdict of one row that does not continue the chain: an unknown decision
      raises at once; a wrong predecessor is reported before the signature is even
      decoded; text that is not hex raises; a bad signature is reported. */
  function VerdictOf(c: Crypto, expected: string, checked: nat, row: ReceiptRow): ChainVerification {
    if row.decision != "ALLOW" && row.decision != "DENY" then ValueError
    else if row.previousHash == expected && FromHex(row.signature).None? then ValueError
    else Report(false, checked, Some(row.sequenceId))
  }

  lemma BadRowEnds(c: Crypto, expected: string, checked: nat, rows: seq<ReceiptRow>)
    requires rows != [] && VerifyFrom(c, expected, checked, [rows[0]]) != Report(true, checked + 1, None)
    ensures VerifyFrom(c, expected, checked, rows) == VerdictOf(c, expected, checked, rows[0])
  {
    hide UnsignedBytes, FromHex;
    if ReadRow(rows[0]).Some? {
      VerifyNothing(c, Link(c, ReadRow(rows[0]).value), checked + 1);
    }
  }

  /** For every table: the verdict is that of the first row at which the accepted
      prefix ends. */
  lemma VerdictAtFirstBadRow(c: Crypto, rows: seq<ReceiptRow>, k: nat)
    requires k < |rows| && Accepted(c, rows[..k]) && !Accepted(c, rows[..k + 1])
    ensures Readable(rows[..k])
    ensures VerifyFrom(c, GENESIS_HASH, 0, rows) == VerdictOf(c, HeadAt(c, Entries(rows[..k]), k), k, rows[k])
  {
    hide VerifyFrom, ReadRow, UnsignedBytes, VerdictOf, HeadAt, Readable, Accepted;
    var front := rows[..k];
    assert rows == front + rows[k..] && rows[..k + 1] == front + [rows[k]];
    AfterAccepted(c, front, rows[k..]);
    AfterAccepted(c, front, [rows[k]]);
    AcceptedIsValid(c, rows[..k + 1]);
    BadRowEnds(c, HeadAt(c, Entries(front), k), k, rows[k..]);
  }

  lemma AcceptedIsValid(c: Crypto, rows: seq<ReceiptRow>)
    ensures Accepted(c, rows) <==> VerifyFrom(c, GENESIS_HASH, 0, rows) == Report(true, |rows|, None)
  {
  }

  lemma AfterAccepted(c: Crypto, front: seq<ReceiptRow>, back: seq<ReceiptRow>)
    requires Accepted(c, front)
    ensures Readable(front)
    ensures VerifyFrom(c, GENESIS_HASH, 0, front + back)
         == VerifyFrom(c, HeadAt(c, Entries(front), |front|), |front|, back)
  {
    hide VerifyFrom, ReadRow, UnsignedBytes, LinkedFrom;
    AcceptedIff(c, front);
    VerifyConcatenation(c, GENESIS_HASH, 0, front, back);
    ResumesAtHead(c, front);
  }

  lemma ResumesAtHead(c: Crypto, rows: seq<ReceiptRow>)
    requires Readable(rows)
    ensures ResumeHash(c, GENESIS_HASH, rows) == HeadAt(c, Entries(rows), |rows|)
  {
    hide ReadRow, Link;
  }

  lemma GenesisIsZeros()
    ensures |GENESIS_HASH| == 64 && forall i :: 0 <= i < 64 ==> GENESIS_HASH[i] == '0'
  {
    assert |SIXTEEN_ZEROS| == 16;
    assert forall i :: 0 <= i < 16 ==> SIXTEEN_ZEROS[i] == '0';
  }

  /** Acceptance, spelled out: 64 zeros come first, each receipt names the digest of
      the one before it and of its signature, in that order, and every signature verifies. */
  lemma AcceptedMeans(c: Crypto, rows: seq<ReceiptRow>)
    ensures |GENESIS_HASH| == 64 && forall i :: 0 <= i < 64 ==> GENESIS_HASH[i] == '0'
    ensures Accepted(c, rows) <==>
      && Readable(rows)
      && (rows != [] ==> Entries(rows)[0].fields.previousHash == GENESIS_HASH)
      && (forall i :: 0 < i < |rows| ==>
            Entries(rows)[i].fields.previousHash
            == c.sha256(UnsignedBytes(Entries(rows)[i - 1].fields) + Entries(rows)[i - 1].signature))
      && (forall i :: 0 <= i < |rows| ==>
            c.verify(Entries(rows)[i].signature, UnsignedBytes(Entries(rows)[i].fields)))
  {
    AcceptedIff(c, rows);
    GenesisIsZeros();
    hide Accepted, VerifyFrom, ReadRow, UnsignedBytes;
    if Readable(rows) {
      var es := Entries(rows);
      if LinkedFrom(c, GENESIS_HASH, es) {
        forall i | 0 <= i < |rows| ensures Fits(c, Prior(c, GENESIS_HASH, es, i), es[i]) {}
      }
    }
  }
}

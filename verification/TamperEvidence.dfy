/**
 Which tables `verify_chain` accepts, given everything the signer ever signed:
 the committed history, cut anywhere, plus at most one receipt that was signed
 at exactly that point. Anything else exhibits a broken primitive.
 */
module TamperEvidence {
  import opened Wrappers
  import opened CanonicalJson
  import opened Receipts
  import opened Chain

  /** One signing: `entry` was signed when `at` receipts had been committed. */
  datatype Attempt = Attempt(at: nat, entry: Sealed)

  /** What a ledger guarantees about its committed history and its signings. */
  ghost predicate Recorded(c: Crypto, committed: seq<Sealed>, attempts: set<Attempt>) {
    && (forall a :: a in attempts ==> SignedAt(c, committed, a))
    && (forall k :: 0 <= k < |committed| ==> Attempt(k, committed[k]) in attempts)
  }

  ghost predicate SignedAt(c: Crypto, committed: seq<Sealed>, a: Attempt) {
    && a.at <= |committed|
    && a.entry.fields.previousHash == HeadAt(c, committed, a.at)
    && a.entry.signature == c.sign(UnsignedBytes(a.entry.fields))
  }

  /** The table is the first `at` committed receipts and one signed at that point, or empty. */
  ghost predicate Genuine(table: seq<Sealed>, committed: seq<Sealed>, attempts: set<Attempt>) {
    table == [] || exists a :: a in attempts && EndsWith(table, committed, a)
  }

  predicate EndsWith(table: seq<Sealed>, committed: seq<Sealed>, a: Attempt) {
    a.at <= |committed| && table == committed[..a.at] + [a.entry]
  }

  /* ---- Broken primitives, exhibited among the entries at hand ---- */

  ghost predicate HashBroken(c: Crypto, es: set<Sealed>) {
    || (exists e, f :: e in es && f in es && Collide(c, e, f))
    || (exists e :: e in es && Link(c, e) == GENESIS_HASH)
  }

  /** Two distinct preimages with one digest. */
  predicate Collide(c: Crypto, e: Sealed, f: Sealed) {
    Preimage(e) != Preimage(f) && Link(c, e) == Link(c, f)
  }

  /** A signature that verifies although nobody signed it. */
  ghost predicate Forged(c: Crypto, table: seq<Sealed>, attempts: set<Attempt>) {
    exists e :: e in table && IsForgery(c, e, attempts)
  }

  ghost predicate IsForgery(c: Crypto, e: Sealed, attempts: set<Attempt>) {
    c.verify(e.signature, UnsignedBytes(e.fields)) && !WasSigned(e, attempts)
  }

  ghost predicate WasSigned(e: Sealed, attempts: set<Attempt>) {
    exists a :: a in attempts && a.entry == e
  }

  ghost function AllEntries(attempts: set<Attempt>): set<Sealed> {
    set a | a in attempts :: a.entry
  }

  /** A fixed-length signature splits off the hashed octets uniquely. */
  lemma PreimageSplits(e: Sealed, f: Sealed)
    requires |e.signature| == |f.signature|
    ensures Preimage(e) == Preimage(f) <==> e == f
  {
    hide UnsignedBytes;
    UnsignedBytesCommit(e.fields, f.fields);
    var a, b := UnsignedBytes(e.fields), UnsignedBytes(f.fields);
    if Preimage(e) == Preimage(f) {
      assert |a| == |b|;
      assert a == Preimage(e)[..|a|] && b == Preimage(f)[..|b|];
      assert e.signature == Preimage(e)[|a|..] && f.signature == Preimage(f)[|b|..];
    }
  }

  /** A sound signer, a recorded history, and no hash break among what was signed. */
  ghost predicate Sound(c: Crypto, committed: seq<Sealed>, attempts: set<Attempt>) {
    SoundSigner(c) && Recorded(c, committed, attempts) && !HashBroken(c, AllEntries(attempts))
  }

  lemma AttemptFacts(c: Crypto, committed: seq<Sealed>, attempts: set<Attempt>, a: Attempt)
    requires Sound(c, committed, attempts) && a in attempts
    ensures SignedAt(c, committed, a) && Link(c, a.entry) != GENESIS_HASH
  {
    hide UnsignedBytes, Preimage, Link, HeadAt;
    assert a.entry in AllEntries(attempts);
  }

  lemma CommittedFacts(c: Crypto, committed: seq<Sealed>, attempts: set<Attempt>, k: nat)
    requires Sound(c, committed, attempts) && k < |committed|
    ensures Attempt(k, committed[k]) in attempts && Link(c, committed[k]) != GENESIS_HASH
    ensures committed[k].fields.previousHash == HeadAt(c, committed, k)
  {
    hide UnsignedBytes, Preimage, Link, HeadAt;
    AttemptFacts(c, committed, attempts, Attempt(k, committed[k]));
  }

  /** Among signed entries, one digest means one entry. */
  lemma SameLinkSameEntry(c: Crypto, committed: seq<Sealed>, attempts: set<Attempt>, a: Attempt, b: Attempt)
    requires Sound(c, committed, attempts) && a in attempts && b in attempts
    requires Link(c, a.entry) == Link(c, b.entry)
    ensures a.entry == b.entry
  {
    hide UnsignedBytes;
    assert SignedAt(c, committed, a) && SignedAt(c, committed, b);
    assert a.entry in AllEntries(attempts) && b.entry in AllEntries(attempts);
    assert !Collide(c, a.entry, b.entry);
    PreimageSplits(a.entry, b.entry);
  }

  /** Every point of the committed history has its own head hash. */
  lemma {:induction false} HeadsAreDistinct(c: Crypto, committed: seq<Sealed>, attempts: set<Attempt>, k: nat, l: nat)
    requires Sound(c, committed, attempts)
    requires k <= |committed| && l <= |committed| && HeadAt(c, committed, k) == HeadAt(c, committed, l)
    ensures k == l
    decreases k
  {
    hide Link, Sound;
    if k > 0 {
      CommittedFacts(c, committed, attempts, k - 1);
    }
    if l > 0 {
      CommittedFacts(c, committed, attempts, l - 1);
    }
    if k > 0 && l > 0 {
      SameLinkSameEntry(c, committed, attempts, Attempt(k - 1, committed[k - 1]), Attempt(l - 1, committed[l - 1]));
      HeadsAreDistinct(c, committed, attempts, k - 1, l - 1);
    }
  }

  /** So no receipt occurs twice in the committed history. */
  lemma CommittedOnce(c: Crypto, committed: seq<Sealed>, attempts: set<Attempt>, i: nat, j: nat)
    requires Sound(c, committed, attempts)
    requires i < |committed| && j < |committed| && committed[i] == committed[j]
    ensures i == j
  {
    hide Link, Sound;
    CommittedFacts(c, committed, attempts, i);
    CommittedFacts(c, committed, attempts, j);
    HeadsAreDistinct(c, committed, attempts, i, j);
  }

  /** The step of the induction: what can follow an accepted prefix. */
  lemma GenuineStep(c: Crypto, committed: seq<Sealed>, attempts: set<Attempt>, table: seq<Sealed>, a: Attempt)
    requires Sound(c, committed, attempts)
    requires Genuine(table, committed, attempts) && a in attempts
    requires a.entry.fields.previousHash == Prior(c, GENESIS_HASH, table, |table|)
    ensures EndsWith(table + [a.entry], committed, a)
  {
    hide Link, Sound, UnsignedBytes;
    AttemptFacts(c, committed, attempts, a);
    if table == [] {
      HeadsAreDistinct(c, committed, attempts, a.at, 0);
    } else {
      var b :| b in attempts && EndsWith(table, committed, b);
      AttemptFacts(c, committed, attempts, b);
      CommittedFacts(c, committed, attempts, a.at - 1);
      var d := Attempt(a.at - 1, committed[a.at - 1]);
      SameLinkSameEntry(c, committed, attempts, b, d);
      HeadsAreDistinct(c, committed, attempts, b.at, d.at);
    }
  }

  lemma {:induction false} LinkedIsGenuine(c: Crypto, committed: seq<Sealed>, attempts: set<Attempt>,
                                           table: seq<Sealed>)
    requires Sound(c, committed, attempts)
    requires LinkedFrom(c, GENESIS_HASH, table) && !Forged(c, table, attempts)
    ensures Genuine(table, committed, attempts)
    decreases |table|
  {
    hide Link, Sound, LinkedFrom, Forged;
    if table != [] {
      var n := |table| - 1;
      LinkedPrefix(c, table, n);
      UnforgedPrefix(c, table, n, attempts);
      LinkedIsGenuine(c, committed, attempts, table[..n]);
      var a := LastAttempt(c, table, attempts);
      assert Prior(c, GENESIS_HASH, table, n) == Prior(c, GENESIS_HASH, table[..n], n);
      GenuineStep(c, committed, attempts, table[..n], a);
      assert table == table[..n] + [a.entry];
    }
  }

  lemma UnforgedPrefix(c: Crypto, table: seq<Sealed>, n: nat, attempts: set<Attempt>)
    requires n <= |table| && !Forged(c, table, attempts)
    ensures !Forged(c, table[..n], attempts)
  {
    hide IsForgery;
    assert forall e :: e in table[..n] ==> e in table;
  }

  lemma LastAttempt(c: Crypto, table: seq<Sealed>, attempts: set<Attempt>) returns (a: Attempt)
    requires table != [] && LinkedFrom(c, GENESIS_HASH, table) && !Forged(c, table, attempts)
    ensures a in attempts && a.entry == table[|table| - 1]
    ensures a.entry.fields.previousHash == Prior(c, GENESIS_HASH, table, |table| - 1)
  {
    hide UnsignedBytes, Link;
    var n := |table| - 1;
    assert Fits(c, Prior(c, GENESIS_HASH, table, n), table[n]);
    assert !IsForgery(c, table[n], attempts);
    a :| a in attempts && a.entry == table[n];
  }

  lemma LinkedPrefix(c: Crypto, es: seq<Sealed>, n: nat)
    requires n <= |es| && LinkedFrom(c, GENESIS_HASH, es)
    ensures LinkedFrom(c, GENESIS_HASH, es[..n])
  {
    hide Link, Fits;
    forall i | 0 <= i < n
      ensures Fits(c, Prior(c, GENESIS_HASH, es[..n], i), es[..n][i])
    {
      assert Fits(c, Prior(c, GENESIS_HASH, es, i), es[i]);
    }
  }

  lemma GenuineIsLinked(c: Crypto, committed: seq<Sealed>, attempts: set<Attempt>, table: seq<Sealed>)
    requires SoundSigner(c) && Recorded(c, committed, attempts) && Genuine(table, committed, attempts)
    ensures LinkedFrom(c, GENESIS_HASH, table)
  {
    hide UnsignedBytes, Preimage, Link;
    if table != [] {
      var a :| a in attempts && EndsWith(table, committed, a);
      forall i | 0 <= i < |table|
        ensures Fits(c, Prior(c, GENESIS_HASH, table, i), table[i])
      {
        var b := if i < a.at then Attempt(i, committed[i]) else a;
        assert b in attempts && SignedAt(c, committed, b);
        assert table[i] == b.entry && (i > 0 ==> table[i - 1] == committed[i - 1]);
      }
    }
  }

  /** Exact tamper evidence. Leaving aside an exhibited hash break or forgery,
      `verify_chain` accepts a table if and only if it is the committed history
      cut at some point, followed by at most one receipt signed at that point. */
  lemma ExactTamperEvidence(c: Crypto, committed: seq<Sealed>, attempts: set<Attempt>, rows: seq<ReceiptRow>)
    requires SoundSigner(c) && Recorded(c, committed, attempts)
    ensures Readable(rows) && Genuine(Entries(rows), committed, attempts) ==> Accepted(c, rows)
    ensures Accepted(c, rows) ==>
      && Readable(rows)
      && (|| Genuine(Entries(rows), committed, attempts)
          || HashBroken(c, AllEntries(attempts))
          || Forged(c, Entries(rows), attempts))
  {
    hide UnsignedBytes, VerifyFrom, ReadRow;
    AcceptedIff(c, rows);
    if Readable(rows) && Genuine(Entries(rows), committed, attempts) {
      GenuineIsLinked(c, committed, attempts, Entries(rows));
    }
    if Accepted(c, rows) && !HashBroken(c, AllEntries(attempts)) && !Forged(c, Entries(rows), attempts) {
      LinkedIsGenuine(c, committed, attempts, Entries(rows));
    }
  }

  lemma GenuineIffPrefix(committed: seq<Sealed>, attempts: set<Attempt>, table: seq<Sealed>)
    requires forall k :: 0 <= k < |committed| ==> Attempt(k, committed[k]) in attempts
    requires forall a :: a in attempts ==> a.at < |committed| && a.entry == committed[a.at]
    ensures Genuine(table, committed, attempts) <==> table <= committed
  {
    if table <= committed && table != [] {
      var a := Attempt(|table| - 1, committed[|table| - 1]);
      assert a in attempts && EndsWith(table, committed, a);
    }
    if Genuine(table, committed, attempts) && table != [] {
      var a :| a in attempts && EndsWith(table, committed, a);
      assert table == committed[..a.at + 1];
    }
  }

  /** When nothing signed was left uncommitted, accepted means a prefix of the history. */
  lemma AcceptedIffPrefix(c: Crypto, committed: seq<Sealed>, attempts: set<Attempt>, rows: seq<ReceiptRow>)
    requires SoundSigner(c) && Recorded(c, committed, attempts)
    requires forall a :: a in attempts ==> a.at < |committed| && a.entry == committed[a.at]
    ensures Readable(rows) && Entries(rows) <= committed ==> Accepted(c, rows)
    ensures Accepted(c, rows) ==>
      Readable(rows) && (Entries(rows) <= committed
        || HashBroken(c, AllEntries(attempts)) || Forged(c, Entries(rows), attempts))
  {
    hide VerifyFrom, ReadRow, SoundSigner, HashBroken, Forged, SignedAt;
    ExactTamperEvidence(c, committed, attempts, rows);
    if Readable(rows) {
      GenuineIffPrefix(committed, attempts, Entries(rows));
    }
  }

  /** All rows but the last are authentic, in order, with none missing between. */
  lemma AllButTheLastRowAreHistory(c: Crypto, committed: seq<Sealed>, attempts: set<Attempt>, rows: seq<ReceiptRow>)
    requires Sound(c, committed, attempts) && rows != [] && Accepted(c, rows)
    ensures Readable(rows)
    ensures Forged(c, Entries(rows), attempts) || Entries(rows)[..|rows| - 1] <= committed
  {
    hide UnsignedBytes, VerifyFrom, ReadRow;
    ExactTamperEvidence(c, committed, attempts, rows);
    if !Forged(c, Entries(rows), attempts) {
      var a :| a in attempts && EndsWith(Entries(rows), committed, a);
      assert Entries(rows)[..|rows| - 1] == committed[..a.at];
    }
  }

  /** Deleting a receipt anywhere but at the tail is rejected. */
  lemma DeletionIsRejected(c: Crypto, committed: seq<Sealed>, attempts: set<Attempt>, rows: seq<ReceiptRow>, i: nat)
    requires Sound(c, committed, attempts)
    requires i < |committed| - 1 && Readable(rows) && Entries(rows) == committed[..i] + committed[i + 1..]
    ensures !Accepted(c, rows)
  {
    hide UnsignedBytes, VerifyFrom, ReadRow, Link, Sound;
    var table := Entries(rows);
    AcceptedIff(c, rows);
    CommittedFacts(c, committed, attempts, i + 1);
    assert table[i] == committed[i + 1] && (i > 0 ==> table[i - 1] == committed[i - 1]);
    if HeadAt(c, committed, i) == HeadAt(c, committed, i + 1) {
      HeadsAreDistinct(c, committed, attempts, i, i + 1);
    }
    assert !Fits(c, Prior(c, GENESIS_HASH, table, i), table[i]);
  }

  /** The columns of a row that its signature does not protect: the spelling of
      the signature's hex, and whether the timestamp carries its zone. */
  lemma RespellingIsAccepted(c: Crypto, front: seq<ReceiptRow>, row: ReceiptRow, respelled: ReceiptRow,
                             back: seq<ReceiptRow>)
    requires ReadRow(row) == ReadRow(respelled) && ReadRow(row).Some?
    ensures Accepted(c, front + [row] + back) <==> Accepted(c, front + [respelled] + back)
  {
    hide UnsignedBytes, VerifyFrom, ReadRow;
    var a, b := front + [row] + back, front + [respelled] + back;
    AcceptedIff(c, a);
    AcceptedIff(c, b);
    assert forall i :: 0 <= i < |a| ==> ReadRow(a[i]) == ReadRow(b[i]);
    assert Readable(a) <==> Readable(b);
    if Readable(a) {
      assert Entries(a) == Entries(b);
    }
  }

  /** The row is the last one, edited to a receipt that was signed at its place. */
  ghost predicate SignedAtTheEnd(attempts: set<Attempt>, front: seq<ReceiptRow>, edited: ReceiptRow,
                                 back: seq<ReceiptRow>) {
    back == [] && exists a :: a in attempts && a.at == |front| && ReadRow(edited) == Some(a.entry)
  }

  /** In a table of committed rows, and absent a hash break, an edit of one row goes
      unnoticed, forgeries aside, exactly when the row still reads as before, or is
      the last and now reads as another receipt signed at that place. */
  lemma EditUnnoticedIff(c: Crypto, committed: seq<Sealed>, attempts: set<Attempt>, front: seq<ReceiptRow>,
                         row: ReceiptRow, edited: ReceiptRow, back: seq<ReceiptRow>)
    requires Sound(c, committed, attempts)
    requires Readable(front + [row] + back) && Entries(front + [row] + back) <= committed
    ensures var table := front + [edited] + back;
      (Accepted(c, table) && Readable(table) && !Forged(c, Entries(table), attempts))
      <==> ReadRow(edited) == ReadRow(row) || SignedAtTheEnd(attempts, front, edited, back)
  {
    hide VerifyFrom, ReadRow, SoundSigner, HashBroken, IsForgery, SignedAt;
    var whole, table := front + [row] + back, front + [edited] + back;
    var n := |front|;
    assert whole[n] == row && table[n] == edited && |whole| == |table|;
    assert forall i :: 0 <= i < |whole| && i != n ==> table[i] == whole[i];
    ExactTamperEvidence(c, committed, attempts, table);
    if Accepted(c, table) && Readable(table) && !Forged(c, Entries(table), attempts) {
      UnnoticedIsExplained(committed, attempts, front, row, edited, back);
    }
    if ReadRow(edited) == ReadRow(row) || SignedAtTheEnd(attempts, front, edited, back) {
      forall i | 0 <= i < |table|
        ensures ReadRow(table[i]).Some?
      {
        assert i != n ==> ReadRow(whole[i]).Some?;
      }
      ExplainedIsGenuine(committed, attempts, front, row, edited, back);
      GenuineIsUnforged(c, committed, attempts, Entries(table));
    }
  }

  lemma UnnoticedIsExplained(committed: seq<Sealed>, attempts: set<Attempt>, front: seq<ReceiptRow>,
                             row: ReceiptRow, edited: ReceiptRow, back: seq<ReceiptRow>)
    requires Readable(front + [row] + back) && Entries(front + [row] + back) <= committed
    requires Readable(front + [edited] + back) && Genuine(Entries(front + [edited] + back), committed, attempts)
    ensures ReadRow(edited) == ReadRow(row) || SignedAtTheEnd(attempts, front, edited, back)
  {
    hide ReadRow;
    var whole, table := front + [row] + back, front + [edited] + back;
    var n := |front|;
    var a :| a in attempts && EndsWith(Entries(table), committed, a);
    assert whole[n] == row && table[n] == edited;
    assert Entries(whole)[n] == committed[n] && a.at == |table| - 1;
    if n < a.at {
      assert Entries(table)[n] == committed[n];
    } else {
      assert back == [] && Entries(table)[n] == a.entry;
    }
  }

  lemma ExplainedIsGenuine(committed: seq<Sealed>, attempts: set<Attempt>, front: seq<ReceiptRow>,
                           row: ReceiptRow, edited: ReceiptRow, back: seq<ReceiptRow>)
    requires forall k :: 0 <= k < |committed| ==> Attempt(k, committed[k]) in attempts
    requires Readable(front + [row] + back) && Entries(front + [row] + back) <= committed
    requires Readable(front + [edited] + back)
    requires ReadRow(edited) == ReadRow(row) || SignedAtTheEnd(attempts, front, edited, back)
    ensures Genuine(Entries(front + [edited] + back), committed, attempts)
  {
    hide ReadRow;
    var whole, table := front + [row] + back, front + [edited] + back;
    var n := |front|;
    assert whole[n] == row && table[n] == edited;
    assert forall i :: 0 <= i < |whole| && i != n ==> table[i] == whole[i];
    if ReadRow(edited) == ReadRow(row) {
      assert Entries(table) == Entries(whole);
      var last := |table| - 1;
      assert EndsWith(Entries(table), committed, Attempt(last, committed[last]));
    } else {
      var a :| a in attempts && a.at == n && ReadRow(edited) == Some(a.entry);
      assert Entries(table)[..n] == committed[..n];
      assert EndsWith(Entries(table), committed, a);
    }
  }

  lemma GenuineIsUnforged(c: Crypto, committed: seq<Sealed>, attempts: set<Attempt>, table: seq<Sealed>)
    requires Sound(c, committed, attempts) && Genuine(table, committed, attempts)
    ensures !Forged(c, table, attempts)
  {
    hide SoundSigner, HashBroken, SignedAt;
    forall e | e in table
      ensures WasSigned(e, attempts)
    {
      var a :| a in attempts && EndsWith(table, committed, a);
      var i :| 0 <= i < |table| && table[i] == e;
      var b := if i < a.at then Attempt(i, committed[i]) else a;
      assert b in attempts && b.entry == e;
    }
  }

  function OtherZone(row: ReceiptRow): ReceiptRow {
    row.(timestamp := row.timestamp.(zone := if row.timestamp.zone.Utc? then Naive else Utc))
  }

  function Spaced(row: ReceiptRow): ReceiptRow {
    row.(signature := " " + row.signature)
  }

  function UpperCased(row: ReceiptRow): ReceiptRow {
    row.(signature := UpperCase(row.signature))
  }

  predicate HasLowerCase(text: string) {
    exists i :: 0 <= i < |text| && 'a' <= text[i] <= 'z'
  }

  /** Such edits exist for every row: dropping or adding the zone, or a space before
      the signature; and its upper case, when it has a letter in lower case. */
  lemma EveryRowHasOtherSpellings(row: ReceiptRow)
    ensures OtherZone(row) != row && ReadRow(OtherZone(row)) == ReadRow(row)
    ensures Spaced(row) != row && ReadRow(Spaced(row)) == ReadRow(row)
    ensures (UpperCased(row) != row <==> HasLowerCase(row.signature)) && ReadRow(UpperCased(row)) == ReadRow(row)
  {
    UpperCaseReadsTheSame(row.signature);
    SpaceReadsTheSame(row.signature);
    hide FromHex;
    assert |Spaced(row).signature| != |row.signature|;
    var upper := UpperCase(row.signature);
    if i :| 0 <= i < |upper| && 'a' <= row.signature[i] <= 'z' {
      assert upper[i] != row.signature[i];
    } else {
      assert upper == row.signature;
    }
  }

  function LowerCase(c: char): char {
    if 'A' <= c <= 'Z' then (c as int + 32) as char else c
  }

  /** The text in lower case, without its ASCII whitespace. */
  function Plain(s: string): string {
    if s == "" then ""
    else if IsHexSpace(s[0]) then Plain(s[1..])
    else [LowerCase(s[0])] + Plain(s[1..])
  }

  lemma PlainOne(s: string)
    requires s != "" && !IsHexSpace(s[0])
    ensures Plain(s) == [LowerCase(s[0])] + Plain(s[1..])
  {
  }

  lemma PlainPair(s: string)
    requires |s| > 1 && !IsHexSpace(s[0]) && !IsHexSpace(s[1])
    ensures Plain(s) == [LowerCase(s[0]), LowerCase(s[1])] + Plain(s[2..])
  {
    hide Plain, LowerCase;
    var t := s[1..];
    assert t[0] == s[1] && t[1..] == s[2..];
    PlainOne(s);
    PlainOne(t);
  }

  lemma HexValueIsPlain(c: char)
    requires HexValue(c).Some?
    ensures HexValue(c).value < 16 && HexDigit(HexValue(c).value) == LowerCase(c) && !IsHexSpace(c)
  {
  }

  /** Text that decodes is the hex of its octets, but for case and whitespace. */
  lemma {:induction false} DecodedIsPlain(s: string)
    requires FromHex(s).Some?
    ensures Plain(s) == Hex(FromHex(s).value)
    decreases |s|
  {
    if s == "" {
    } else if IsHexSpace(s[0]) {
      DecodedIsPlain(s[1..]);
    } else {
      HexValueIsPlain(s[0]);
      HexValueIsPlain(s[1]);
      DecodedIsPlain(s[2..]);
      PlainPair(s);
      var high, low, rest := HexValue(s[0]).value, HexValue(s[1]).value, FromHex(s[2..]).value;
      var octet: byte := 16 * high + low;
      assert FromHex(s).value == [octet] + rest && ([octet] + rest)[1..] == rest;
      assert octet / 16 == high && octet % 16 == low;
    }
  }

  /** Every column, the zone dropped and the signature plain. */
  function Normal(row: ReceiptRow): ReceiptRow {
    row.(timestamp := row.timestamp.(zone := Utc), signature := Plain(row.signature))
  }

  /** Those spellings are all there are: two readable rows read alike exactly when
      they agree in every column but the zone and the signature's case and spaces. */
  lemma ReadAlikeIff(row: ReceiptRow, other: ReceiptRow)
    requires ReadRow(row).Some? && ReadRow(other).Some?
    ensures ReadRow(row) == ReadRow(other) <==> Normal(row) == Normal(other)
  {
    DecodedIsPlain(row.signature);
    DecodedIsPlain(other.signature);
    HexRoundTrip(FromHex(row.signature).value);
    HexRoundTrip(FromHex(other.signature).value);
    hide FromHex, Hex, Plain;
    assert "ALLOW"[0] != "DENY"[0];
  }

  lemma SpaceReadsTheSame(s: string)
    ensures FromHex(" " + s) == FromHex(s)
  {
    var spaced := " " + s;
    assert spaced[0] == ' ' && spaced[1..] == s;
  }

  lemma {:induction false} UpperCaseReadsTheSame(s: string)
    ensures FromHex(UpperCase(s)) == FromHex(s)
    decreases |s|
  {
    if s == "" {
    } else if IsHexSpace(s[0]) {
      assert UpperCase(s)[0] == s[0] && UpperCase(s)[1..] == UpperCase(s[1..]);
      UpperCaseReadsTheSame(s[1..]);
    } else if |s| > 1 {
      UpperCaseReadsTheSame(s[2..]);
      assert UpperCase(s)[2..] == UpperCase(s[2..]);
    }
  }

  /** ASCII upper case. */
  function UpperCase(s: string): string {
    seq(|s|, i requires 0 <= i < |s| => if 'a' <= s[i] <= 'z' then (s[i] as int - 32) as char else s[i])
  }

  /** An edit that goes unnoticed: the signature column in upper case. */
  lemma UpperCasedSignatureIsAccepted(c: Crypto, front: seq<ReceiptRow>, row: ReceiptRow, back: seq<ReceiptRow>)
    requires ReadRow(row).Some?
    ensures Accepted(c, front + [row] + back)
            <==> Accepted(c, front + [row.(signature := UpperCase(row.signature))] + back)
  {
    UpperCaseReadsTheSame(row.signature);
    hide UnsignedBytes, VerifyFrom, FromHex;
    RespellingIsAccepted(c, front, row, row.(signature := UpperCase(row.signature)), back);
  }
}

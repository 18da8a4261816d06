/**
 Execution receipts, the rows that store them, and the bytes they commit to.
 */
module Receipts {
  import opened Wrappers
  import opened CanonicalJson

  /* ---- Timestamps ---- */

  datatype Zone = Naive | Utc

  datatype DateTime = DateTime(
    year: nat, month: nat, day: nat, hour: nat, minute: nat, second: nat, micro: nat, zone: Zone)

  predicate CalendarFields(t: DateTime) {
    && t.year < 10000 && 1 <= t.month <= 12 && 1 <= t.day <= 31
    && t.hour < 24 && t.minute < 60 && t.second < 60 && t.micro < 1000000
  }

  type Timestamp = t: DateTime | CalendarFields(t) witness DateTime(1970, 1, 1, 0, 0, 0, 0, Utc)

  function Digit(d: nat): char
    requires d < 10
  {
    (d + '0' as int) as char
  }

  function TwoDigits(n: nat): string
    requires n < 100
  {
    [Digit(n / 10), Digit(n % 10)]
  }

  function Fraction(micro: nat): string
    requires micro < 1000000
  {
    if micro == 0 then ""
    else "." + (TwoDigits(micro / 10000) + (TwoDigits(micro / 100 % 100) + TwoDigits(micro % 100)))
  }

  function ZoneSuffix(zone: Zone): string {
    match zone
    case Naive => ""
    case Utc => "Z"
  }

  function DateText(t: Timestamp): string {
    TwoDigits(t.year / 100) + (TwoDigits(t.year % 100) + ("-" + (TwoDigits(t.month) + ("-" + (TwoDigits(t.day)
    + "T")))))
  }

  function ClockText(t: Timestamp): string {
    TwoDigits(t.hour) + (":" + (TwoDigits(t.minute) + (":" + TwoDigits(t.second))))
  }

  /** ISO 8601, as `model_dump(mode="json")` prints a datetime. */
  function IsoFormat(t: Timestamp): string {
    DateText(t) + (ClockText(t) + (Fraction(t.micro) + ZoneSuffix(t.zone)))
  }

  /* ---- Receipts and rows ---- */

  datatype Decision = Allow | Deny

  function DecisionText(d: Decision): string {
    match d
    case Allow => "ALLOW"
    case Deny => "DENY"
  }

  /** Everything a receipt's signature covers. */
  datatype Receipt = Receipt(
    sequenceId: string,
    timestamp: Timestamp,
    spiffeId: string,
    decision: Decision,
    reason: string,
    payloadHash: string,
    previousHash: string,
    enforced: bool)

  datatype ExecutionReceipt = ExecutionReceipt(fields: Receipt, signature: Option<string>)

  /** A row of `oac.execution_receipts`, without its `id`. */
  datatype ReceiptRow = ReceiptRow(
    sequenceId: string,
    timestamp: Timestamp,
    spiffeId: string,
    decision: string,
    reason: string,
    payloadHash: string,
    previousHash: string,
    signature: string,
    enforced: bool)

  /** `_to_domain`: a naive timestamp is read as UTC; an unknown decision raises ValueError. */
  function ToDomain(row: ReceiptRow): Option<ExecutionReceipt> {
    var timestamp := if row.timestamp.zone.Naive? then row.timestamp.(zone := Utc) else row.timestamp;
    if row.decision != "ALLOW" && row.decision != "DENY" then None
    else
      Some(ExecutionReceipt(
        Receipt(row.sequenceId, timestamp, row.spiffeId, if row.decision == "ALLOW" then Allow else Deny,
                row.reason, row.payloadHash, row.previousHash, row.enforced),
        Some(row.signature)))
  }

  /** The row written for a receipt; `zone` is what the backend gives back:
      timestamptz stays aware, SQLite drops the zone. */
  function ToRow(r: Receipt, signature: string, zone: Zone): ReceiptRow {
    ReceiptRow(r.sequenceId, r.timestamp.(zone := zone), r.spiffeId, DecisionText(r.decision), r.reason,
               r.payloadHash, r.previousHash, signature, r.enforced)
  }

  lemma RowRoundTrip(r: Receipt, signature: string, zone: Zone)
    requires r.timestamp.zone.Utc?
    ensures ToDomain(ToRow(r, signature, zone)) == Some(ExecutionReceipt(r, Some(signature)))
  {
    assert "ALLOW"[0] != "DENY"[0];
  }

  /** Each column of the row written is the field of its name. */
  lemma RowHolds(r: Receipt, signature: string, zone: Zone)
    ensures var row := ToRow(r, signature, zone);
      && row.sequenceId == r.sequenceId && row.timestamp == r.timestamp.(zone := zone)
      && row.spiffeId == r.spiffeId && row.decision == (if r.decision.Allow? then "ALLOW" else "DENY")
      && row.reason == r.reason && row.payloadHash == r.payloadHash && row.previousHash == r.previousHash
      && row.signature == signature && row.enforced == r.enforced
  {
  }

  /** `model_dump(mode="json", exclude={"signature"})`, in field order. Each function
      is the rest of the dictionary from one field on, so that a lemma can speak of
      the receipt one field at a time. */
  function Dump(r: Receipt): Json {
    Obj(Member("sequence_id", Str(r.sequenceId), FieldsFromTimestamp(r)))
  }

  function FieldsFromTimestamp(r: Receipt): Members {
    Member("timestamp", Str(IsoFormat(r.timestamp)), FieldsFromSpiffeId(r))
  }

  function FieldsFromSpiffeId(r: Receipt): Members {
    Member("spiffe_id", Str(r.spiffeId), FieldsFromDecision(r))
  }

  function FieldsFromDecision(r: Receipt): Members {
    Member("decision", Str(DecisionText(r.decision)), FieldsFromReason(r))
  }

  function FieldsFromReason(r: Receipt): Members {
    Member("reason", Str(r.reason), FieldsFromPayloadHash(r))
  }

  function FieldsFromPayloadHash(r: Receipt): Members {
    Member("payload_hash", Str(r.payloadHash), FieldsFromPreviousHash(r))
  }

  function FieldsFromPreviousHash(r: Receipt): Members {
    Member("previous_hash", Str(r.previousHash), FieldsFromEnforced(r))
  }

  function FieldsFromEnforced(r: Receipt): Members {
    Member("enforced", Bool(r.enforced), NoMembers)
  }

  function UnsignedBytes(r: Receipt): seq<byte> {
    DumpIsWellFormed(r);
    CanonicalBytes(Dump(r))
  }

  /** What the signed dictionary says, under each of its eight keys and no other. */
  lemma DumpDenotes(r: Receipt)
    ensures Denote(Dump(r)) == VObj(map[
      "sequence_id" := VStr(r.sequenceId),
      "timestamp" := VStr(IsoFormat(r.timestamp)),
      "spiffe_id" := VStr(r.spiffeId),
      "decision" := VStr(if r.decision.Allow? then "ALLOW" else "DENY"),
      "reason" := VStr(r.reason),
      "payload_hash" := VStr(r.payloadHash),
      "previous_hash" := VStr(r.previousHash),
      "enforced" := VBool(r.enforced)])
  {
    hide IsoFormat, DenoteMembers, FieldsFromReason;
    FieldNamesAreDistinct();
    RestDenotes(r);
    MemberDenotes("decision", Str(DecisionText(r.decision)), FieldsFromReason(r));
    MemberDenotes("spiffe_id", Str(r.spiffeId), FieldsFromDecision(r));
    MemberDenotes("timestamp", Str(IsoFormat(r.timestamp)), FieldsFromSpiffeId(r));
    MemberDenotes("sequence_id", Str(r.sequenceId), FieldsFromTimestamp(r));
  }

  lemma RestDenotes(r: Receipt)
    ensures DenoteMembers(FieldsFromReason(r)) == map[
      "reason" := VStr(r.reason),
      "payload_hash" := VStr(r.payloadHash),
      "previous_hash" := VStr(r.previousHash),
      "enforced" := VBool(r.enforced)]
  {
    hide DenoteMembers;
    FieldNamesAreDistinct();
    MemberDenotes("enforced", Bool(r.enforced), NoMembers);
    MemberDenotes("previous_hash", Str(r.previousHash), FieldsFromEnforced(r));
    MemberDenotes("payload_hash", Str(r.payloadHash), FieldsFromPreviousHash(r));
    MemberDenotes("reason", Str(r.reason), FieldsFromPayloadHash(r));
    NothingDenotes();
  }

  lemma MemberDenotes(key: string, v: Json, rest: Members)
    ensures DenoteMembers(Member(key, v, rest)) == DenoteMembers(rest)[key := Denote(v)]
  {
  }

  lemma NothingDenotes()
    ensures DenoteMembers(NoMembers) == map[]
  {
  }

  /** Already the first two letters tell the field names apart. */
  lemma FieldNamesAreDistinct()
    ensures "sequence_id" !in ["timestamp", "spiffe_id", "decision", "reason", "payload_hash", "previous_hash",
        "enforced"]
    ensures "timestamp" !in ["spiffe_id", "decision", "reason", "payload_hash", "previous_hash", "enforced"]
    ensures "spiffe_id" !in ["decision", "reason", "payload_hash", "previous_hash", "enforced"]
    ensures "decision" !in ["reason", "payload_hash", "previous_hash", "enforced"]
    ensures "reason" !in ["payload_hash", "previous_hash", "enforced"]
    ensures "payload_hash" !in ["previous_hash", "enforced"] && "previous_hash" != "enforced"
  {
    assert "sequence_id"[0] == 's' && "sequence_id"[1] == 'e' && "spiffe_id"[0] == 's' && "spiffe_id"[1] == 'p';
    assert "timestamp"[0] == 't' && "decision"[0] == 'd' && "reason"[0] == 'r' && "enforced"[0] == 'e';
    assert "payload_hash"[0] == 'p' && "payload_hash"[1] == 'a';
    assert "previous_hash"[0] == 'p' && "previous_hash"[1] == 'r';
  }

  /* ---- What the printed timestamp reads as ---- */

  /** A decimal numeral. */
  function Decimal(digits: string): int {
    if digits == "" then 0
    else 10 * Decimal(digits[..|digits| - 1]) + (digits[|digits| - 1] as int - '0' as int)
  }

  lemma TwoDigitsRead(n: nat)
    requires n < 100
    ensures |TwoDigits(n)| == 2 && Decimal(TwoDigits(n)) == n
  {
    var d := TwoDigits(n);
    assert d[..1] == [Digit(n / 10)] && d[..1][..0] == "";
    assert Decimal(d[..1]) == n / 10;
  }

  lemma DecimalJoins(a: string, m: nat)
    requires m < 100
    ensures Decimal(a + TwoDigits(m)) == 100 * Decimal(a) + m
  {
    var text := a + TwoDigits(m);
    assert text[..|text| - 1] == a + [Digit(m / 10)];
    assert (a + [Digit(m / 10)])[..|a|] == a;
  }

  /** `YYYY-MM-DDTHH:MM:SS`, then the microseconds in six digits unless they are zero,
      then `Z` if the timestamp is in UTC. */
  lemma IsoReads(t: Timestamp)
    ensures var text := IsoFormat(t);
      && |text| >= 19
      && Decimal(text[..4]) == t.year && Decimal(text[5..7]) == t.month && Decimal(text[8..10]) == t.day
      && Decimal(text[11..13]) == t.hour && Decimal(text[14..16]) == t.minute && Decimal(text[17..19]) == t.second
      && text[4] == '-' && text[7] == '-' && text[10] == 'T' && text[13] == ':' && text[16] == ':'
      && text[19..] == Fraction(t.micro) + (if t.zone.Utc? then "Z" else "")
    ensures t.micro > 0 ==> var f := Fraction(t.micro); |f| == 7 && f[0] == '.' && Decimal(f[1..]) == t.micro
    ensures t.micro == 0 ==> Fraction(t.micro) == ""
  {
    IsoPieces(t);
    if t.micro > 0 {
      FractionReads(t.micro);
    }
    TwoDigitsRead(t.year / 100);
    DecimalJoins(TwoDigits(t.year / 100), t.year % 100);
    TwoDigitsRead(t.month);
    TwoDigitsRead(t.day);
    TwoDigitsRead(t.hour);
    TwoDigitsRead(t.minute);
    TwoDigitsRead(t.second);
  }

  lemma IsoPieces(t: Timestamp)
    ensures var text := IsoFormat(t);
      && |text| >= 19
      && text[..4] == TwoDigits(t.year / 100) + TwoDigits(t.year % 100)
      && text[5..7] == TwoDigits(t.month) && text[8..10] == TwoDigits(t.day)
      && text[11..13] == TwoDigits(t.hour) && text[14..16] == TwoDigits(t.minute) && text[17..19] == TwoDigits(t.second)
      && text[4] == '-' && text[7] == '-' && text[10] == 'T' && text[13] == ':' && text[16] == ':'
      && text[19..] == Fraction(t.micro) + ZoneSuffix(t.zone)
  {
    hide Digit, Fraction, ZoneSuffix;
    var date, clock, tail := DateText(t), ClockText(t), Fraction(t.micro) + ZoneSuffix(t.zone);
    assert |date| == 11 && |clock| == 8;
    var text := IsoFormat(t);
    assert text == date + clock + tail;
    assert text[..11] == date && text[11..19] == clock && text[19..] == tail;
    assert date[..4] == TwoDigits(t.year / 100) + TwoDigits(t.year % 100);
    assert date[5..7] == TwoDigits(t.month) && date[8..10] == TwoDigits(t.day);
    assert clock[..2] == TwoDigits(t.hour) && clock[3..5] == TwoDigits(t.minute) && clock[6..8] == TwoDigits(t.second);
  }

  lemma FractionReads(micro: nat)
    requires 0 < micro < 1000000
    ensures var f := Fraction(micro); |f| == 7 && f[0] == '.' && Decimal(f[1..]) == micro
  {
    var a, b, c := micro / 10000, micro / 100 % 100, micro % 100;
    TwoDigitsRead(a);
    DecimalJoins(TwoDigits(a), b);
    DecimalJoins(TwoDigits(a) + TwoDigits(b), c);
    Hundreds(micro);
    assert Fraction(micro)[1..] == TwoDigits(a) + TwoDigits(b) + TwoDigits(c);
  }

  /* ---- Hex ---- */

  /** Each octet is two digits, the high one first. */
  lemma {:induction false} HexSpells(bytes: seq<byte>, i: nat)
    requires i < |bytes|
    ensures |Hex(bytes)| == 2 * |bytes|
    ensures Hex(bytes)[2 * i] == "0123456789abcdef"[bytes[i] / 16]
    ensures Hex(bytes)[2 * i + 1] == "0123456789abcdef"[bytes[i] % 16]
    decreases |bytes|
  {
    HexDigits(bytes[0] / 16);
    HexDigits(bytes[0] % 16);
    hide HexDigit;
    var text := Hex(bytes);
    assert text == [HexDigit(bytes[0] / 16), HexDigit(bytes[0] % 16)] + Hex(bytes[1..]);
    if |bytes| > 1 {
      HexSpells(bytes[1..], if i > 0 then i - 1 else 0);
      var rest := Hex(bytes[1..]);
      assert i > 0 ==> text[2 * i] == rest[2 * (i - 1)] && text[2 * i + 1] == rest[2 * (i - 1) + 1];
    } else {
      assert bytes[1..] == [];
    }
  }

  lemma HexDigits(d: nat)
    requires d < 16
    ensures HexDigit(d) == "0123456789abcdef"[d]
  {
  }

  function Hex(bytes: seq<byte>): string {
    if bytes == [] then ""
    else [HexDigit(bytes[0] / 16), HexDigit(bytes[0] % 16)] + Hex(bytes[1..])
  }

  predicate IsHexSpace(c: char) {
    c == ' ' || 9 <= c as int <= 13
  }

  function HexValue(c: char): Option<nat> {
    if '0' <= c <= '9' then Some(c as int - '0' as int)
    else if 'a' <= c <= 'f' then Some(c as int - 'a' as int + 10)
    else if 'A' <= c <= 'F' then Some(c as int - 'A' as int + 10)
    else None
  }

  /** `bytes.fromhex`: either letter case, ASCII whitespace between octets skipped; `None` is ValueError. */
  function FromHex(s: string): Option<seq<byte>> {
    if s == "" then Some([])
    else if IsHexSpace(s[0]) then FromHex(s[1..])
    else if |s| == 1 then None
    else
      match (HexValue(s[0]), HexValue(s[1]))
      case (Some(high), Some(low)) =>
        if high < 16 && low < 16 then
          (match FromHex(s[2..])
           case Some(rest) => Some([16 * high + low] + rest)
           case None => None)
        else None
      case _ => None
  }

  lemma HexRoundTrip(bytes: seq<byte>)
    ensures FromHex(Hex(bytes)) == Some(bytes)
  {
    if bytes != [] {
      HexRoundTrip(bytes[1..]);
      FromHexOctet(bytes[0], Hex(bytes[1..]), bytes[1..]);
      assert bytes == [bytes[0]] + bytes[1..];
    }
  }

  lemma HexValueOfDigit(d: nat)
    requires d < 16
    ensures HexValue(HexDigit(d)) == Some(d) && !IsHexSpace(HexDigit(d))
  {
  }

  lemma FromHexOctet(b: byte, s: string, rest: seq<byte>)
    requires FromHex(s) == Some(rest)
    ensures FromHex([HexDigit(b / 16), HexDigit(b % 16)] + s) == Some([b] + rest)
  {
    HexValueOfDigit(b / 16);
    HexValueOfDigit(b % 16);
    var text := [HexDigit(b / 16), HexDigit(b % 16)] + s;
    assert text[0] == HexDigit(b / 16) && text[1] == HexDigit(b % 16) && text[2..] == s;
  }

  /* ---- What the signed bytes commit to ---- */

  lemma TextsDiffer(a: string, b: string, i: nat)
    requires |a| == |b| ==> i < |a| && a[i] != b[i]
    ensures a != b
  {
  }

  lemma DumpIsWellFormed(r: Receipt)
    ensures WellFormed(Dump(r))
  {
    FieldNamesAreDistinct();
    DumpKeys(r, "sequence_id");
    DumpKeys(r, "timestamp");
    DumpKeys(r, "spiffe_id");
    DumpKeys(r, "decision");
    DumpKeys(r, "reason");
    DumpKeys(r, "payload_hash");
    DumpKeys(r, "previous_hash");
    assert WellFormedMembers(NoMembers);
    assert WellFormedMembers(FieldsFromEnforced(r));
    assert WellFormedMembers(FieldsFromPreviousHash(r));
    assert WellFormedMembers(FieldsFromPayloadHash(r));
    assert WellFormedMembers(FieldsFromReason(r));
    assert WellFormedMembers(FieldsFromDecision(r));
    assert WellFormedMembers(FieldsFromSpiffeId(r));
    assert WellFormedMembers(FieldsFromTimestamp(r));
  }

  lemma DumpKeys(r: Receipt, k: string)
    ensures HasKey(FieldsFromEnforced(r), k) <==> k == "enforced"
    ensures HasKey(FieldsFromPreviousHash(r), k) <==> k == "previous_hash" || HasKey(FieldsFromEnforced(r), k)
    ensures HasKey(FieldsFromPayloadHash(r), k) <==> k == "payload_hash" || HasKey(FieldsFromPreviousHash(r), k)
    ensures HasKey(FieldsFromReason(r), k) <==> k == "reason" || HasKey(FieldsFromPayloadHash(r), k)
    ensures HasKey(FieldsFromDecision(r), k) <==> k == "decision" || HasKey(FieldsFromReason(r), k)
    ensures HasKey(FieldsFromSpiffeId(r), k) <==> k == "spiffe_id" || HasKey(FieldsFromDecision(r), k)
    ensures HasKey(FieldsFromTimestamp(r), k) <==> k == "timestamp" || HasKey(FieldsFromSpiffeId(r), k)
  {
  }

  /** Equal keys in one order, and a text or a truth value under each. */
  predicate FlatAlike(ms: Members, ns: Members) {
    match ms
    case NoMembers => ns.NoMembers?
    case Member(k, v, rest) =>
      ns.Member? && ns.key == k && (v.Str? || v.Bool?) && (ns.value.Str? || ns.value.Bool?) && FlatAlike(rest, ns.rest)
  }

  lemma FlatAlikeUnique(ms: Members, ns: Members)
    requires FlatAlike(ms, ns) && WellFormedMembers(ms) && WellFormedMembers(ns)
    requires DenoteMembers(ms) == DenoteMembers(ns)
    ensures ms == ns
  {
    if ms.Member? {
      var k := ms.key;
      assert DenoteMembers(ms)[k] == Denote(ms.value) && DenoteMembers(ns)[k] == Denote(ns.value);
      KeysOfDenotation(ms.rest, k);
      KeysOfDenotation(ns.rest, k);
      assert DenoteMembers(ms.rest) == DenoteMembers(ms) - {k};
      assert DenoteMembers(ns.rest) == DenoteMembers(ns) - {k};
      FlatAlikeUnique(ms.rest, ns.rest);
    }
  }

  lemma DumpsAreAlike(r: Receipt, q: Receipt)
    ensures FlatAlike(Dump(r).members, Dump(q).members)
  {
    assert FlatAlike(FieldsFromEnforced(r), FieldsFromEnforced(q));
    assert FlatAlike(FieldsFromPreviousHash(r), FieldsFromPreviousHash(q));
    assert FlatAlike(FieldsFromPayloadHash(r), FieldsFromPayloadHash(q));
    assert FlatAlike(FieldsFromReason(r), FieldsFromReason(q));
    assert FlatAlike(FieldsFromDecision(r), FieldsFromDecision(q));
    assert FlatAlike(FieldsFromSpiffeId(r), FieldsFromSpiffeId(q));
    assert FlatAlike(FieldsFromTimestamp(r), FieldsFromTimestamp(q));
  }

  lemma TwoDigitsInjective(m: nat, n: nat)
    requires m < 100 && n < 100 && TwoDigits(m) == TwoDigits(n)
    ensures m == n
  {
    assert TwoDigits(m)[0] == TwoDigits(n)[0] && TwoDigits(m)[1] == TwoDigits(n)[1];
    assert m == m / 10 * 10 + m % 10 && n == n / 10 * 10 + n % 10;
  }

  /** Two digits, then the rest: both are determined. */
  lemma TwoDigitsThen(m: nat, n: nat, s: string, t: string)
    requires m < 100 && n < 100 && TwoDigits(m) + s == TwoDigits(n) + t
    ensures m == n && s == t
  {
    SplitAt(TwoDigits(m), s, TwoDigits(n), t);
    TwoDigitsInjective(m, n);
  }

  lemma DateTextInjective(t: Timestamp, u: Timestamp)
    requires DateText(t) == DateText(u)
    ensures t.year == u.year && t.month == u.month && t.day == u.day
  {
    var dayT, dayU := TwoDigits(t.day) + "T", TwoDigits(u.day) + "T";
    var monthT, monthU := TwoDigits(t.month) + ("-" + dayT), TwoDigits(u.month) + ("-" + dayU);
    var yearT, yearU := TwoDigits(t.year % 100) + ("-" + monthT), TwoDigits(u.year % 100) + ("-" + monthU);
    TwoDigitsThen(t.year / 100, u.year / 100, yearT, yearU);
    TwoDigitsThen(t.year % 100, u.year % 100, "-" + monthT, "-" + monthU);
    SplitAt("-", monthT, "-", monthU);
    TwoDigitsThen(t.month, u.month, "-" + dayT, "-" + dayU);
    SplitAt("-", dayT, "-", dayU);
    TwoDigitsThen(t.day, u.day, "T", "T");
    assert t.year == t.year / 100 * 100 + t.year % 100 && u.year == u.year / 100 * 100 + u.year % 100;
  }

  lemma ClockTextInjective(t: Timestamp, u: Timestamp)
    requires ClockText(t) == ClockText(u)
    ensures t.hour == u.hour && t.minute == u.minute && t.second == u.second
  {
    var minuteT, minuteU := TwoDigits(t.minute) + (":" + TwoDigits(t.second)),
      TwoDigits(u.minute) + (":" + TwoDigits(u.second));
    TwoDigitsThen(t.hour, u.hour, ":" + minuteT, ":" + minuteU);
    SplitAt(":", minuteT, ":", minuteU);
    TwoDigitsThen(t.minute, u.minute, ":" + TwoDigits(t.second), ":" + TwoDigits(u.second));
    SplitAt(":", TwoDigits(t.second), ":", TwoDigits(u.second));
    TwoDigitsInjective(t.second, u.second);
  }

  lemma FractionInjective(m: nat, n: nat, z: Zone, y: Zone)
    requires m < 1000000 && n < 1000000
    requires Fraction(m) + ZoneSuffix(z) == Fraction(n) + ZoneSuffix(y)
    ensures m == n && z == y
  {
    var s, t := Fraction(m) + ZoneSuffix(z), Fraction(n) + ZoneSuffix(y);
    assert m != 0 ==> s != "" && s[0] == '.';
    assert n != 0 ==> t != "" && t[0] == '.';
    assert m == 0 ==> s == ZoneSuffix(z);
    assert n == 0 ==> t == ZoneSuffix(y);
    assert (m == 0) == (n == 0);
    if m != 0 {
      SplitAt(Fraction(m), ZoneSuffix(z), Fraction(n), ZoneSuffix(y));
      var restM, restN := TwoDigits(m / 100 % 100) + TwoDigits(m % 100), TwoDigits(n / 100 % 100) + TwoDigits(n % 100);
      SplitAt(".", TwoDigits(m / 10000) + restM, ".", TwoDigits(n / 10000) + restN);
      TwoDigitsThen(m / 10000, n / 10000, restM, restN);
      TwoDigitsThen(m / 100 % 100, n / 100 % 100, TwoDigits(m % 100), TwoDigits(n % 100));
      TwoDigitsInjective(m % 100, n % 100);
      Hundreds(m);
      Hundreds(n);
    }
  }

  lemma Hundreds(n: nat)
    ensures n == n / 10000 * 10000 + n / 100 % 100 * 100 + n % 100
  {
    assert n / 100 / 100 == n / 10000;
  }

  lemma IsoFormatInjective(t: Timestamp, u: Timestamp)
    requires IsoFormat(t) == IsoFormat(u)
    ensures t == u
  {
    var clockT, clockU := ClockText(t) + (Fraction(t.micro) + ZoneSuffix(t.zone)),
      ClockText(u) + (Fraction(u.micro) + ZoneSuffix(u.zone));
    SplitAt(DateText(t), clockT, DateText(u), clockU);
    SplitAt(ClockText(t), Fraction(t.micro) + ZoneSuffix(t.zone), ClockText(u), Fraction(u.micro) + ZoneSuffix(u.zone));
    DateTextInjective(t, u);
    ClockTextInjective(t, u);
    FractionInjective(t.micro, u.micro, t.zone, u.zone);
  }

  /** The signed bytes determine every field of the receipt. */
  lemma UnsignedBytesCommit(r: Receipt, q: Receipt)
    ensures UnsignedBytes(r) == UnsignedBytes(q) <==> r == q
  {
    DumpIsWellFormed(r);
    DumpIsWellFormed(q);
    CanonicalBytesCommit(Dump(r), Dump(q));
    if UnsignedBytes(r) == UnsignedBytes(q) {
      SameDumpSameReceipt(r, q);
    }
  }

  lemma SameDumpSameReceipt(r: Receipt, q: Receipt)
    requires Denote(Dump(r)) == Denote(Dump(q))
    ensures r == q
  {
    DumpIsWellFormed(r);
    DumpIsWellFormed(q);
    DumpsAreAlike(r, q);
    FlatAlikeUnique(Dump(r).members, Dump(q).members);
    var ms, ns := Dump(r).members.rest, Dump(q).members.rest;
    assert FieldsFromTimestamp(r) == FieldsFromTimestamp(q) && FieldsFromSpiffeId(r) == FieldsFromSpiffeId(q)
      && FieldsFromDecision(r) == FieldsFromDecision(q);
    assert FieldsFromReason(r) == FieldsFromReason(q) && FieldsFromPayloadHash(r) == FieldsFromPayloadHash(q)
      && FieldsFromPreviousHash(r) == FieldsFromPreviousHash(q);
    IsoFormatInjective(r.timestamp, q.timestamp);
    assert "ALLOW"[0] != "DENY"[0];
  }
}

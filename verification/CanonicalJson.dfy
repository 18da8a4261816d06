/**
 The bytes a receipt is signed over: `canonical_json`, that is
 `json.dumps(data, sort_keys=True)` encoded as UTF-8.

 A dictionary is the list of its entries in insertion order. A number is the
 text Python prints for it (`int.__repr__` and `float.__repr__` are foreign
 code). Strings range over Unicode scalar values, as pydantic strings do.
 */
module CanonicalJson {

  datatype Json =
    | Null
    | Bool(b: bool)
    | Number(text: string)
    | Str(s: string)
    | Arr(items: Items)
    | Obj(members: Members)

  datatype Items = NoItems | Item(head: Json, tail: Items)

  datatype Members = NoMembers | Member(key: string, value: Json, rest: Members)

  type byte = x: int | 0 <= x < 256

  /* ---- Well-formed values: what Python can hold ---- */

  predicate NumberChar(c: char) {
    '0' <= c <= '9' || c in {'+', '-', '.', 'e', 'I', 'N', 'a', 'f', 'i', 'n', 't', 'y'}
  }

  predicate NumberText(text: string) {
    && text != ""
    && ('0' <= text[0] <= '9' || text[0] in {'-', 'I', 'N'})
    && forall i :: 0 <= i < |text| ==> NumberChar(text[i])
  }

  predicate HasKey(ms: Members, key: string) {
    match ms
    case NoMembers => false
    case Member(k, _, rest) => k == key || HasKey(rest, key)
  }

  predicate WellFormed(v: Json) {
    match v
    case Number(text) => NumberText(text)
    case Arr(items) => WellFormedItems(items)
    case Obj(members) => WellFormedMembers(members)
    case _ => true
  }

  predicate WellFormedItems(items: Items) {
    match items
    case NoItems => true
    case Item(head, tail) => WellFormed(head) && WellFormedItems(tail)
  }

  /** A dictionary holds each key once. */
  predicate WellFormedMembers(ms: Members) {
    match ms
    case NoMembers => true
    case Member(k, v, rest) => !HasKey(rest, k) && WellFormed(v) && WellFormedMembers(rest)
  }

  /* ---- What a value means: dictionaries are maps, whatever the insertion order ---- */

  datatype Value =
    | VNull
    | VBool(b: bool)
    | VNumber(text: string)
    | VStr(s: string)
    | VArr(items: seq<Value>)
    | VObj(fields: map<string, Value>)

  function Denote(v: Json): Value {
    match v
    case Null => VNull
    case Bool(b) => VBool(b)
    case Number(text) => VNumber(text)
    case Str(s) => VStr(s)
    case Arr(items) => VArr(DenoteItems(items))
    case Obj(members) => VObj(DenoteMembers(members))
  }

  function DenoteItems(items: Items): seq<Value> {
    match items
    case NoItems => []
    case Item(head, tail) => [Denote(head)] + DenoteItems(tail)
  }

  function DenoteMembers(ms: Members): map<string, Value> {
    match ms
    case NoMembers => map[]
    case Member(k, v, rest) => DenoteMembers(rest)[k := Denote(v)]
  }

  /* ---- String escaping: section 7 of RFC 8259, ASCII only ---- */

  function HexDigit(d: nat): char
    requires d < 16
  {
    if d < 10 then (d + '0' as int) as char else (d - 10 + 'a' as int) as char
  }

  function Hex4(n: nat): string
    requires n < 0x10000
  {
    [HexDigit(n / 0x1000), HexDigit(n / 0x100 % 0x10), HexDigit(n / 0x10 % 0x10), HexDigit(n % 0x10)]
  }

  function EscapeChar(c: char): string {
    if c == '\"' then "\\\""
    else if c == '\\' then "\\\\"
    else if c == '\n' then "\\n"
    else if c == '\r' then "\\r"
    else if c == '\t' then "\\t"
    else if c as int == 0x0c then "\\f"
    else if c as int == 0x08 then "\\b"
    else if ' ' <= c <= '~' then [c]
    else if c as int < 0x10000 then "\\u" + Hex4(c as int)
    else
      var n := c as int - 0x10000;
      "\\u" + Hex4(0xd800 + n / 0x400) + "\\u" + Hex4(0xdc00 + n % 0x400)
  }

  /** The escaped characters followed by the closing quote. */
  function EscapeTail(s: string): string {
    if s == "" then "\"" else EscapeChar(s[0]) + EscapeTail(s[1..])
  }

  function Quote(s: string): string {
    "\"" + EscapeTail(s)
  }

  /* ---- Rendering, with Python's default separators ---- */

  function Render(v: Json): string {
    match v
    case Null => "null"
    case Bool(b) => if b then "true" else "false"
    case Number(text) => text
    case Str(s) => Quote(s)
    case Arr(items) => "[" + RenderItems(items)
    case Obj(members) => "{" + RenderMembers(members)
  }

  function RenderItems(items: Items): string {
    match items
    case NoItems => "]"
    case Item(head, tail) => Render(head) + RenderMoreItems(tail)
  }

  function RenderMoreItems(items: Items): string {
    match items
    case NoItems => "]"
    case Item(head, tail) => ", " + (Render(head) + RenderMoreItems(tail))
  }

  function RenderMembers(ms: Members): string {
    match ms
    case NoMembers => "}"
    case Member(k, v, rest) => Quote(k) + (": " + (Render(v) + RenderMoreMembers(rest)))
  }

  function RenderMoreMembers(ms: Members): string {
    match ms
    case NoMembers => "}"
    case Member(k, v, rest) => ", " + (Quote(k) + (": " + (Render(v) + RenderMoreMembers(rest))))
  }

  /* ---- sort_keys ---- */

  /** Python's string order: by code point, a proper prefix first. */
  predicate Before(a: string, b: string) {
    if b == "" then false
    else if a == "" then true
    else a[0] < b[0] || (a[0] == b[0] && Before(a[1..], b[1..]))
  }

  function InsertMember(key: string, value: Json, ms: Members): Members {
    match ms
    case NoMembers => Member(key, value, NoMembers)
    case Member(k, v, rest) =>
      if Before(key, k) then Member(key, value, ms) else Member(k, v, InsertMember(key, value, rest))
  }

  function SortKeys(v: Json): Json {
    match v
    case Arr(items) => Arr(SortKeysItems(items))
    case Obj(members) => Obj(SortKeysMembers(members))
    case _ => v
  }

  function SortKeysItems(items: Items): Items {
    match items
    case NoItems => NoItems
    case Item(head, tail) => Item(SortKeys(head), SortKeysItems(tail))
  }

  function SortKeysMembers(ms: Members): Members {
    match ms
    case NoMembers => NoMembers
    case Member(k, v, rest) => InsertMember(k, SortKeys(v), SortKeysMembers(rest))
  }

  function CanonicalText(v: Json): string {
    Render(SortKeys(v))
  }

  /** The values Python can hold. */
  type PyJson = v: Json | WellFormed(v) witness Null

  /** UTF-8 of a text that is all ASCII: one octet a character (`EscapeChar`
      leaves nothing else; see `CanonicalTextIsAscii`). */
  function Encode(text: string): (bytes: seq<byte>)
    requires forall i :: 0 <= i < |text| ==> text[i] as int < 128
  {
    seq(|text|, i requires 0 <= i < |text| => text[i] as int)
  }

  function CanonicalBytes(v: Json): seq<byte>
    requires WellFormed(v)
  {
    CanonicalTextIsAscii(v);
    Encode(CanonicalText(v))
  }

  /* ==== The output is ASCII ==== */

  predicate Ascii(s: string) {
    forall i :: 0 <= i < |s| ==> s[i] as int < 128
  }

  lemma EscapeTailIsAscii(s: string)
    ensures Ascii(EscapeTail(s))
  {
  }

  lemma RenderIsAscii(v: Json)
    requires WellFormed(v)
    ensures Ascii(Render(v))
  {
    match v
    case Null =>
    case Bool(_) =>
    case Number(text) => assert forall i :: 0 <= i < |text| ==> NumberChar(text[i]);
    case Str(s) => EscapeTailIsAscii(s);
    case Arr(items) => RenderItemsIsAscii(items);
    case Obj(members) => RenderMembersIsAscii(members);
  }

  lemma RenderItemsIsAscii(items: Items)
    requires WellFormedItems(items)
    ensures Ascii(RenderItems(items)) && Ascii(RenderMoreItems(items))
  {
    match items
    case NoItems =>
    case Item(head, tail) =>
      RenderIsAscii(head);
      RenderItemsIsAscii(tail);
  }

  lemma RenderMembersIsAscii(ms: Members)
    requires WellFormedMembers(ms)
    ensures Ascii(RenderMembers(ms)) && Ascii(RenderMoreMembers(ms))
  {
    match ms
    case NoMembers =>
    case Member(k, v, rest) =>
      EscapeTailIsAscii(k);
      RenderIsAscii(v);
      RenderMembersIsAscii(rest);
  }

  lemma CanonicalTextIsAscii(v: Json)
    requires WellFormed(v)
    ensures Ascii(CanonicalText(v))
  {
    SortKeysSorts(v);
    RenderIsAscii(SortKeys(v));
  }

  /* ==== Sorting keeps the meaning and yields the sorted form ==== */

  lemma BeforeTotal(a: string, b: string)
    ensures Before(a, b) || Before(b, a) || a == b
    ensures !(Before(a, b) && Before(b, a)) && !Before(a, a)
  {
    if a != "" && b != "" {
      BeforeTotal(a[1..], b[1..]);
      assert a == [a[0]] + a[1..] && b == [b[0]] + b[1..];
    }
    if a != "" {
      BeforeTotal(a[1..], a[1..]);
    }
  }

  lemma BeforeTransitive(a: string, b: string, c: string)
    requires Before(a, b) && Before(b, c)
    ensures Before(a, c)
  {
    if a != "" && a[0] == b[0] == c[0] {
      BeforeTransitive(a[1..], b[1..], c[1..]);
    }
  }

  /** `key` comes before every key of `ms`. */
  predicate Below(key: string, ms: Members) {
    match ms
    case NoMembers => true
    case Member(k, _, rest) => Before(key, k) && Below(key, rest)
  }

  predicate Sorted(v: Json) {
    match v
    case Arr(items) => SortedItems(items)
    case Obj(members) => SortedMembers(members)
    case _ => true
  }

  predicate SortedItems(items: Items) {
    match items
    case NoItems => true
    case Item(head, tail) => Sorted(head) && SortedItems(tail)
  }

  predicate SortedMembers(ms: Members) {
    match ms
    case NoMembers => true
    case Member(k, v, rest) => Below(k, rest) && Sorted(v) && SortedMembers(rest)
  }

  lemma BelowTransitive(a: string, b: string, ms: Members)
    requires Before(a, b) && Below(b, ms)
    ensures Below(a, ms)
  {
    match ms
    case NoMembers =>
    case Member(k, _, rest) => BeforeTransitive(a, b, k);
  }

  lemma BelowHasNoKey(key: string, ms: Members)
    requires Below(key, ms)
    ensures !HasKey(ms, key)
  {
    match ms
    case NoMembers =>
    case Member(k, _, rest) => BeforeTotal(key, k);
  }

  lemma KeysOfDenotation(ms: Members, key: string)
    ensures HasKey(ms, key) <==> key in DenoteMembers(ms)
  {
  }

  lemma InsertKeys(key: string, value: Json, ms: Members, k: string)
    ensures HasKey(InsertMember(key, value, ms), k) <==> k == key || HasKey(ms, k)
  {
  }

  lemma InsertBelow(a: string, key: string, value: Json, ms: Members)
    requires Below(a, ms) && Before(a, key)
    ensures Below(a, InsertMember(key, value, ms))
  {
  }

  lemma InsertSorts(key: string, value: Json, ms: Members)
    requires SortedMembers(ms) && Sorted(value) && !HasKey(ms, key)
    requires WellFormedMembers(ms) && WellFormed(value)
    ensures SortedMembers(InsertMember(key, value, ms))
    ensures WellFormedMembers(InsertMember(key, value, ms))
  {
    match ms
    case NoMembers =>
    case Member(k, _, rest) =>
      BeforeTotal(key, k);
      if Before(key, k) {
        BelowTransitive(key, k, rest);
      } else {
        InsertSorts(key, value, rest);
        InsertBelow(k, key, value, rest);
        InsertKeys(key, value, rest, k);
      }
  }

  lemma InsertDenotes(key: string, value: Json, ms: Members)
    requires !HasKey(ms, key)
    ensures DenoteMembers(InsertMember(key, value, ms)) == DenoteMembers(ms)[key := Denote(value)]
  {
  }

  lemma SortKeysSorts(v: Json)
    requires WellFormed(v)
    ensures Sorted(SortKeys(v)) && WellFormed(SortKeys(v))
    ensures Denote(SortKeys(v)) == Denote(v)
  {
    match v
    case Arr(items) => SortKeysItemsSorts(items);
    case Obj(members) => SortKeysMembersSorts(members);
    case _ =>
  }

  lemma SortKeysItemsSorts(items: Items)
    requires WellFormedItems(items)
    ensures SortedItems(SortKeysItems(items)) && WellFormedItems(SortKeysItems(items))
    ensures DenoteItems(SortKeysItems(items)) == DenoteItems(items)
  {
    match items
    case NoItems =>
    case Item(head, tail) =>
      SortKeysSorts(head);
      SortKeysItemsSorts(tail);
  }

  lemma SortKeysMembersSorts(ms: Members)
    requires WellFormedMembers(ms)
    ensures SortedMembers(SortKeysMembers(ms)) && WellFormedMembers(SortKeysMembers(ms))
    ensures DenoteMembers(SortKeysMembers(ms)) == DenoteMembers(ms)
  {
    match ms
    case NoMembers =>
    case Member(k, v, rest) =>
      SortKeysSorts(v);
      SortKeysMembersSorts(rest);
      KeysOfDenotation(rest, k);
      KeysOfDenotation(SortKeysMembers(rest), k);
      InsertSorts(k, SortKeys(v), SortKeysMembers(rest));
      InsertDenotes(k, SortKeys(v), SortKeysMembers(rest));
  }

  /* ==== A sorted value is determined by its meaning ==== */

  lemma SortedUnique(v: Json, w: Json)
    requires Sorted(v) && Sorted(w) && Denote(v) == Denote(w)
    ensures v == w
    decreases v
  {
    match v
    case Arr(items) => SortedItemsUnique(items, w.items);
    case Obj(members) => SortedMembersUnique(members, w.members);
    case _ =>
  }

  lemma SortedItemsUnique(xs: Items, ys: Items)
    requires SortedItems(xs) && SortedItems(ys) && DenoteItems(xs) == DenoteItems(ys)
    ensures xs == ys
    decreases xs
  {
    match xs
    case NoItems =>
    case Item(x, tail) =>
      assert DenoteItems(ys)[0] == Denote(x);
      assert DenoteItems(ys)[1..] == DenoteItems(tail) && DenoteItems(ys)[1..] == DenoteItems(ys.tail);
      SortedUnique(x, ys.head);
      SortedItemsUnique(tail, ys.tail);
  }

  lemma BelowBoundsKeys(key: string, ms: Members, k: string)
    requires Below(key, ms) && HasKey(ms, k)
    ensures Before(key, k)
  {
  }

  lemma SortedMembersUnique(ms: Members, ns: Members)
    requires SortedMembers(ms) && SortedMembers(ns) && DenoteMembers(ms) == DenoteMembers(ns)
    ensures ms == ns
    decreases ms
  {
    assert ms.Member? ==> ms.key in DenoteMembers(ms);
    assert ns.Member? ==> ns.key in DenoteMembers(ns);
    match ms
    case NoMembers =>
    case Member(k, v, rest) =>
      KeysOfDenotation(ns, k);
      assert ns.Member? && ns.key in DenoteMembers(ms);
      KeysOfDenotation(ms, ns.key);
      SmallestKey(ms, ns);
      assert DenoteMembers(ms)[k] == Denote(v) && DenoteMembers(ns)[k] == Denote(ns.value);
      SortedUnique(v, ns.value);
      BelowHasNoKey(k, rest);
      BelowHasNoKey(k, ns.rest);
      KeysOfDenotation(rest, k);
      KeysOfDenotation(ns.rest, k);
      assert DenoteMembers(rest) == DenoteMembers(ms) - {k};
      assert DenoteMembers(ns.rest) == DenoteMembers(ns) - {k};
      SortedMembersUnique(rest, ns.rest);
  }

  lemma SmallestKey(ms: Members, ns: Members)
    requires ms.Member? && ns.Member? && Below(ms.key, ms.rest) && Below(ns.key, ns.rest)
    requires HasKey(ns, ms.key) && HasKey(ms, ns.key)
    ensures ms.key == ns.key
  {
    BeforeTotal(ms.key, ns.key);
    if ms.key != ns.key {
      BelowBoundsKeys(ms.key, ms.rest, ns.key);
      BelowBoundsKeys(ns.key, ns.rest, ms.key);
    }
  }

  /* ==== Unique readability of the rendering ==== */

  lemma HexDigitInjective(a: nat, b: nat)
    requires a < 16 && b < 16 && HexDigit(a) == HexDigit(b)
    ensures a == b
  {
  }

  function Nibble(n: nat, i: nat): nat
    requires n < 0x10000 && i < 4
    ensures Nibble(n, i) < 16
  {
    if i == 0 then n / 0x1000
    else if i == 1 then n / 0x100 % 0x10
    else if i == 2 then n / 0x10 % 0x10
    else n % 0x10
  }

  lemma FromNibbles(n: nat)
    requires n < 0x10000
    ensures n == Nibble(n, 0) * 0x1000 + Nibble(n, 1) * 0x100 + Nibble(n, 2) * 0x10 + Nibble(n, 3)
  {
    assert n / 0x10 / 0x10 == n / 0x100 && n / 0x100 / 0x10 == n / 0x1000;
  }

  lemma Hex4Injective(m: nat, n: nat)
    requires m < 0x10000 && n < 0x10000 && Hex4(m) == Hex4(n)
    ensures m == n
  {
    var a, b := Hex4(m), Hex4(n);
    forall i | 0 <= i < 4
      ensures Nibble(m, i) == Nibble(n, i)
    {
      assert a[i] == HexDigit(Nibble(m, i)) && b[i] == HexDigit(Nibble(n, i));
      HexDigitInjective(Nibble(m, i), Nibble(n, i));
    }
    FromNibbles(m);
    FromNibbles(n);
  }

  /** If two texts agree, so do their prefixes of one length and what follows. */
  lemma SplitAt(a: string, s: string, b: string, t: string)
    requires a + s == b + t && |a| == |b|
    ensures a == b && s == t
  {
    assert a == (a + s)[..|a|] && b == (b + t)[..|b|];
    assert s == (a + s)[|a|..] && t == (b + t)[|b|..];
  }

  /** The four hex digits after a `\u` escape. */
  function Escaped(c: char): nat
    requires |EscapeChar(c)| >= 6
  {
    if c as int < 0x10000 then c as int else 0xd800 + (c as int - 0x10000) / 0x400
  }

  lemma EscapeShape(c: char)
    ensures |EscapeChar(c)| in {1, 2, 6, 12}
    ensures |EscapeChar(c)| == 1 ==> EscapeChar(c) == [c] && c != '\\' && c != '\"'
    ensures |EscapeChar(c)| > 1 ==> EscapeChar(c)[0] == '\\'
    ensures |EscapeChar(c)| == 2 ==> EscapeChar(c)[1] != 'u'
    ensures |EscapeChar(c)| >= 6 ==> EscapeChar(c)[1] == 'u' && EscapeChar(c)[2..6] == Hex4(Escaped(c))
    ensures |EscapeChar(c)| == 12 <==> c as int >= 0x10000
    ensures |EscapeChar(c)| == 12 ==> EscapeChar(c)[8..] == Hex4(0xdc00 + (c as int - 0x10000) % 0x400)
    ensures |EscapeChar(c)| == 12 ==> 0xd800 <= Escaped(c) < 0xdc00
  {
  }

  lemma SameEscapeSameChar(c: char, d: char)
    requires |EscapeChar(c)| >= 6 && EscapeChar(c) == EscapeChar(d) && Escaped(c) == Escaped(d)
    ensures c == d
  {
    EscapeShape(c);
    EscapeShape(d);
    if c as int >= 0x10000 {
      var x, y := c as int - 0x10000, d as int - 0x10000;
      Hex4Injective(0xdc00 + x % 0x400, 0xdc00 + y % 0x400);
      assert x == x / 0x400 * 0x400 + x % 0x400 && y == y / 0x400 * 0x400 + y % 0x400;
    }
  }

  lemma EscapeCharSplit(c: char, d: char, s: string, t: string)
    requires EscapeChar(c) + s == EscapeChar(d) + t
    ensures c == d && s == t
  {
    EscapeShape(c);
    EscapeShape(d);
    var a, b := EscapeChar(c), EscapeChar(d);
    var text := a + s;
    assert text[0] == a[0] && text[0] == b[0];
    if |a| == 1 || |b| == 1 {
      SplitAt(a, s, b, t);
    } else {
      assert text[1] == a[1] && text[1] == b[1];
      if |a| == 2 || |b| == 2 {
        SplitAt(a, s, b, t);
      } else {
        assert text[2..6] == a[2..6] && text[2..6] == b[2..6];
        Hex4Injective(Escaped(c), Escaped(d));
        SplitAt(a, s, b, t);
        SameEscapeSameChar(c, d);
      }
    }
  }

  lemma EscapeTailFirst(s: string)
    ensures EscapeTail(s) != ""
    ensures EscapeTail(s)[0] == '\"' <==> s == ""
  {
    if s != "" {
      EscapeShape(s[0]);
    }
  }

  lemma EscapeTailUnfold(a: string, s: string)
    requires a != ""
    ensures EscapeTail(a) + s == EscapeChar(a[0]) + (EscapeTail(a[1..]) + s)
  {
    var x, y := EscapeChar(a[0]), EscapeTail(a[1..]);
    assert (x + y) + s == x + (y + s);
  }

  lemma EscapeTailSplit(a: string, b: string, s: string, t: string)
    requires EscapeTail(a) + s == EscapeTail(b) + t
    ensures a == b && s == t
  {
    var text := EscapeTail(a) + s;
    EscapeTailFirst(a);
    EscapeTailFirst(b);
    assert text[0] == EscapeTail(a)[0] && text[0] == EscapeTail(b)[0];
    if a == "" {
      SplitAt(EscapeTail(a), s, EscapeTail(b), t);
    } else {
      EscapeTailUnfold(a, s);
      EscapeTailUnfold(b, t);
      EscapeCharSplit(a[0], b[0], EscapeTail(a[1..]) + s, EscapeTail(b[1..]) + t);
      EscapeTailSplit(a[1..], b[1..], s, t);
      assert a == [a[0]] + a[1..] && b == [b[0]] + b[1..];
    }
  }

  lemma QuoteSplit(a: string, b: string, s: string, t: string)
    requires Quote(a) + s == Quote(b) + t
    ensures a == b && s == t
  {
    DropFirst("\"", EscapeTail(a), EscapeTail(b), s, t);
    EscapeTailSplit(a, b, s, t);
  }

  /** What may follow a value: nothing that could continue a number. */
  predicate Stops(s: string) {
    s == "" || !NumberChar(s[0])
  }

  function NumberPrefix(text: string): string {
    if text == "" || !NumberChar(text[0]) then "" else [text[0]] + NumberPrefix(text[1..])
  }

  lemma {:induction false} ReadNumber(a: string, s: string)
    requires forall i :: 0 <= i < |a| ==> NumberChar(a[i])
    requires Stops(s)
    ensures NumberPrefix(a + s) == a
  {
    if a == "" {
      assert a + s == s;
    } else {
      assert (a + s)[1..] == a[1..] + s;
      ReadNumber(a[1..], s);
    }
  }

  lemma NumberSplit(a: string, b: string, s: string, t: string)
    requires NumberText(a) && NumberText(b) && Stops(s) && Stops(t) && a + s == b + t
    ensures a == b && s == t
  {
    ReadNumber(a, s);
    ReadNumber(b, t);
    SplitAt(a, s, b, t);
  }

  lemma RenderNonempty(v: Json)
    requires WellFormed(v)
    ensures Render(v) != ""
    ensures Render(v)[0] == match v
      case Null => 'n'
      case Bool(b) => if b then 't' else 'f'
      case Number(text) => text[0]
      case Str(_) => '\"'
      case Arr(_) => '['
      case Obj(_) => '{'
  {
  }

  lemma SameKind(v: Json, w: Json, s: string, t: string)
    requires WellFormed(v) && WellFormed(w)
    requires Render(v) + s == Render(w) + t
    ensures v.Number? == w.Number? && v.Str? == w.Str? && v.Arr? == w.Arr? && v.Obj? == w.Obj?
    ensures v.Null? == w.Null? && v.Bool? == w.Bool? && (v.Bool? ==> v == w)
  {
    RenderNonempty(v);
    RenderNonempty(w);
    assert (Render(v) + s)[0] == Render(v)[0] && (Render(w) + t)[0] == Render(w)[0];
  }

  lemma DropFirst(p: string, a: string, b: string, s: string, t: string)
    requires (p + a) + s == (p + b) + t
    ensures a + s == b + t
  {
    assert (p + a) + s == p + (a + s) && (p + b) + t == p + (b + t);
    SplitAt(p, a + s, p, b + t);
  }

  lemma RenderSplit(v: Json, w: Json, s: string, t: string)
    requires WellFormed(v) && WellFormed(w) && Stops(s) && Stops(t)
    requires Render(v) + s == Render(w) + t
    ensures v == w && s == t
    decreases v
  {
    SameKind(v, w, s, t);
    match v
    case Null => SplitAt("null", s, "null", t);
    case Bool(_) => SplitAt(Render(v), s, Render(w), t);
    case Number(text) => NumberSplit(text, w.text, s, t);
    case Str(x) => QuoteSplit(x, w.s, s, t);
    case Arr(items) =>
      DropFirst("[", RenderItems(items), RenderItems(w.items), s, t);
      RenderItemsSplit(items, w.items, s, t);
    case Obj(ms) =>
      DropFirst("{", RenderMembers(ms), RenderMembers(w.members), s, t);
      RenderMembersSplit(ms, w.members, s, t);
  }

  lemma MoreItemsStops(items: Items)
    ensures forall s :: Stops(RenderMoreItems(items) + s)
  {
  }

  lemma MoreMembersStops(ms: Members)
    ensures forall s :: Stops(RenderMoreMembers(ms) + s)
  {
  }

  lemma RenderItemsFirst(items: Items)
    requires WellFormedItems(items)
    ensures RenderItems(items) != ""
    ensures RenderItems(items)[0] == ']' <==> items.NoItems?
  {
    if items.Item? {
      RenderNonempty(items.head);
    }
  }

  lemma RenderItemsSplit(xs: Items, ys: Items, s: string, t: string)
    requires WellFormedItems(xs) && WellFormedItems(ys)
    requires RenderItems(xs) + s == RenderItems(ys) + t
    ensures xs == ys && s == t
    decreases xs, 1
  {
    var text := RenderItems(xs) + s;
    RenderItemsFirst(xs);
    RenderItemsFirst(ys);
    assert text[0] == RenderItems(xs)[0] && text[0] == RenderItems(ys)[0];
    if xs.NoItems? {
      SplitAt("]", s, "]", t);
    } else {
      HeadThenMoreItems(xs, ys, s, t);
    }
  }

  lemma HeadThenMoreItems(xs: Items, ys: Items, s: string, t: string)
    requires xs.Item? && ys.Item? && WellFormedItems(xs) && WellFormedItems(ys)
    requires (Render(xs.head) + RenderMoreItems(xs.tail)) + s == (Render(ys.head) + RenderMoreItems(ys.tail)) + t
    ensures xs == ys && s == t
    decreases xs, 0
  {
    var a, b := RenderMoreItems(xs.tail) + s, RenderMoreItems(ys.tail) + t;
    assert (Render(xs.head) + RenderMoreItems(xs.tail)) + s == Render(xs.head) + a;
    assert (Render(ys.head) + RenderMoreItems(ys.tail)) + t == Render(ys.head) + b;
    MoreItemsStops(xs.tail);
    MoreItemsStops(ys.tail);
    RenderSplit(xs.head, ys.head, a, b);
    RenderMoreItemsSplit(xs.tail, ys.tail, s, t);
  }

  lemma RenderMoreItemsSplit(xs: Items, ys: Items, s: string, t: string)
    requires WellFormedItems(xs) && WellFormedItems(ys)
    requires RenderMoreItems(xs) + s == RenderMoreItems(ys) + t
    ensures xs == ys && s == t
    decreases xs, 1
  {
    var text := RenderMoreItems(xs) + s;
    assert text[0] == RenderMoreItems(xs)[0] && text[0] == RenderMoreItems(ys)[0];
    if xs.NoItems? {
      SplitAt("]", s, "]", t);
    } else {
      DropFirst(", ", Render(xs.head) + RenderMoreItems(xs.tail), Render(ys.head) + RenderMoreItems(ys.tail), s, t);
      HeadThenMoreItems(xs, ys, s, t);
    }
  }

  function RenderMember(m: Members): string
    requires m.Member?
  {
    Quote(m.key) + (": " + (Render(m.value) + RenderMoreMembers(m.rest)))
  }

  lemma RenderMembersSplit(ms: Members, ns: Members, s: string, t: string)
    requires WellFormedMembers(ms) && WellFormedMembers(ns)
    requires RenderMembers(ms) + s == RenderMembers(ns) + t
    ensures ms == ns && s == t
    decreases ms, 1
  {
    var text := RenderMembers(ms) + s;
    assert text[0] == RenderMembers(ms)[0] && text[0] == RenderMembers(ns)[0];
    if ms.NoMembers? {
      SplitAt("}", s, "}", t);
    } else {
      MemberSplit(ms, ns, s, t);
    }
  }

  lemma RenderMoreMembersSplit(ms: Members, ns: Members, s: string, t: string)
    requires WellFormedMembers(ms) && WellFormedMembers(ns)
    requires RenderMoreMembers(ms) + s == RenderMoreMembers(ns) + t
    ensures ms == ns && s == t
    decreases ms, 1
  {
    var text := RenderMoreMembers(ms) + s;
    assert text[0] == RenderMoreMembers(ms)[0] && text[0] == RenderMoreMembers(ns)[0];
    if ms.NoMembers? {
      SplitAt("}", s, "}", t);
    } else {
      DropFirst(", ", RenderMember(ms), RenderMember(ns), s, t);
      MemberSplit(ms, ns, s, t);
    }
  }

  lemma Reassociate(a: string, b: string, c: string, d: string, s: string)
    ensures (a + (b + (c + d))) + s == a + (b + (c + (d + s)))
  {
  }

  lemma MemberSplit(ms: Members, ns: Members, s: string, t: string)
    requires ms.Member? && ns.Member? && WellFormedMembers(ms) && WellFormedMembers(ns)
    requires RenderMember(ms) + s == RenderMember(ns) + t
    ensures ms == ns && s == t
    decreases ms, 0
  {
    var a, b := RenderMoreMembers(ms.rest) + s, RenderMoreMembers(ns.rest) + t;
    var c, d := Render(ms.value) + a, Render(ns.value) + b;
    Reassociate(Quote(ms.key), ": ", Render(ms.value), RenderMoreMembers(ms.rest), s);
    Reassociate(Quote(ns.key), ": ", Render(ns.value), RenderMoreMembers(ns.rest), t);
    QuoteSplit(ms.key, ns.key, ": " + c, ": " + d);
    SplitAt(": ", c, ": ", d);
    MoreMembersStops(ms.rest);
    MoreMembersStops(ns.rest);
    RenderSplit(ms.value, ns.value, a, b);
    RenderMoreMembersSplit(ms.rest, ns.rest, s, t);
  }

  lemma EncodeInjective(a: string, b: string)
    requires Ascii(a) && Ascii(b) && Encode(a) == Encode(b)
    ensures a == b
  {
    assert |a| == |Encode(a)| && |b| == |Encode(b)|;
    forall i | 0 <= i < |a|
      ensures a[i] == b[i]
    {
      assert Encode(a)[i] == a[i] as int && Encode(b)[i] == b[i] as int;
    }
  }

  /** The canonical bytes of two values agree exactly when the values mean the
      same: insertion order never matters, and nothing else is lost. */
  lemma CanonicalBytesCommit(a: Json, b: Json)
    requires WellFormed(a) && WellFormed(b)
    ensures CanonicalBytes(a) == CanonicalBytes(b) <==> Denote(a) == Denote(b)
  {
    SortKeysSorts(a);
    SortKeysSorts(b);
    if Denote(a) == Denote(b) {
      SortedUnique(SortKeys(a), SortKeys(b));
    }
    if CanonicalBytes(a) == CanonicalBytes(b) {
      CanonicalTextIsAscii(a);
      CanonicalTextIsAscii(b);
      EncodeInjective(CanonicalText(a), CanonicalText(b));
      assert CanonicalText(a) + "" == CanonicalText(b) + "";
      RenderSplit(SortKeys(a), SortKeys(b), "", "");
    }
  }
}

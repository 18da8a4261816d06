/**
 A reader of JSON text, after RFC 8259: insignificant whitespace around the six
 structural characters (section 2), strings with every escape of section 7, and
 Python's texts for numbers. It undoes `canonical_json`.
 */
module JsonReader {
  import opened Wrappers
  import opened CanonicalJson
  import opened Receipts

  type Read<T> = Option<(T, string)>

  /* ---- Strings: section 7 of RFC 8259 ---- */

  /** Four hex digits, as a number. */
  function ReadUnit(text: string): (r: Read<nat>)
    ensures r.Some? ==> r.value.0 < 0x10000 && |r.value.1| == |text| - 4
  {
    if |text| < 4 then None
    else
      match (HexValue(text[0]), HexValue(text[1]), HexValue(text[2]), HexValue(text[3]))
      case (Some(a), Some(b), Some(c), Some(d)) =>
        if a < 16 && b < 16 && c < 16 && d < 16
        then Some((a * 0x1000 + b * 0x100 + c * 0x10 + d, text[4..])) else None
      case _ => None
  }

  /** What follows a backslash and `u`: a character outside the basic plane takes two units. */
  function ReadUnicode(text: string): (r: Read<char>)
    ensures r.Some? ==> |r.value.1| < |text|
  {
    match ReadUnit(text)
    case None => None
    case Some((unit, rest)) =>
      if unit < 0xd800 || 0xe000 <= unit then Some((unit as char, rest))
      else if 0xdc00 <= unit || |rest| < 2 || rest[0] != '\\' || rest[1] != 'u' then None
      else
        match ReadUnit(rest[2..])
        case None => None
        case Some((low, after)) =>
          if low < 0xdc00 || 0xe000 <= low then None
          else Some(((0x10000 + (unit - 0xd800) * 0x400 + (low - 0xdc00)) as char, after))
  }

  function ReadChar(text: string): (r: Read<char>)
    ensures r.Some? ==> |r.value.1| < |text|
  {
    if text == "" || text[0] < ' ' || text[0] == '\"' then None
    else if text[0] != '\\' then Some((text[0], text[1..]))
    else if |text| < 2 then None
    else
      match text[1]
      case '\"' => Some(('\"', text[2..]))
      case '\\' => Some(('\\', text[2..]))
      case '/' => Some(('/', text[2..]))
      case 'b' => Some((0x08 as char, text[2..]))
      case 'f' => Some((0x0c as char, text[2..]))
      case 'n' => Some(('\n', text[2..]))
      case 'r' => Some(('\r', text[2..]))
      case 't' => Some(('\t', text[2..]))
      case 'u' => ReadUnicode(text[2..])
      case _ => None
  }

  /** The characters up to the closing quotation mark. */
  function ReadTail(text: string): (r: Read<string>)
    ensures r.Some? ==> |r.value.1| < |text|
    decreases |text|
  {
    if text == "" then None
    else if text[0] == '\"' then Some(("", text[1..]))
    else
      match ReadChar(text)
      case None => None
      case Some((c, rest)) =>
        match ReadTail(rest)
        case None => None
        case Some((more, after)) => Some(([c] + more, after))
  }

  /* ---- Values ---- */

  function SkipSpace(text: string): (rest: string)
    ensures |rest| <= |text|
    decreases |text|
  {
    if text != "" && text[0] in {' ', '\t', '\n', '\r'} then SkipSpace(text[1..]) else text
  }

  predicate NumberStart(c: char) {
    '0' <= c <= '9' || c in {'-', 'I', 'N'}
  }

  function ReadValue(text: string): (r: Read<Json>)
    ensures r.Some? ==> |r.value.1| < |text|
    decreases |text|, 0
  {
    var t := SkipSpace(text);
    if t == "" then None
    else if t[0] == '\"' then
      match ReadTail(t[1..])
      case None => None
      case Some((s, rest)) => Some((Str(s), rest))
    else if t[0] == '[' then
      match ReadItems(t[1..])
      case None => None
      case Some((items, rest)) => Some((Arr(items), rest))
    else if t[0] == '{' then
      match ReadMembers(t[1..])
      case None => None
      case Some((members, rest)) => Some((Obj(members), rest))
    else if "null" <= t then Some((Null, t[4..]))
    else if "true" <= t then Some((Bool(true), t[4..]))
    else if "false" <= t then Some((Bool(false), t[5..]))
    else if NumberStart(t[0]) then
      var number := NumberPrefix(t);
      if 0 < |number| <= |t| then Some((Number(number), t[|number|..])) else None
    else None
  }

  /** The rest of an array, after `[`. */
  function ReadItems(text: string): (r: Read<Items>)
    ensures r.Some? ==> |r.value.1| < |text|
    decreases |text|, 2
  {
    var t := SkipSpace(text);
    if t == "" then None
    else if t[0] == ']' then Some((NoItems, t[1..]))
    else ReadItem(t)
  }

  function ReadItem(text: string): (r: Read<Items>)
    ensures r.Some? ==> |r.value.1| < |text|
    decreases |text|, 1
  {
    match ReadValue(text)
    case None => None
    case Some((v, rest)) =>
      match ReadMoreItems(rest)
      case None => None
      case Some((tail, after)) => Some((Item(v, tail), after))
  }

  function ReadMoreItems(text: string): (r: Read<Items>)
    ensures r.Some? ==> |r.value.1| < |text|
    decreases |text|, 2
  {
    var t := SkipSpace(text);
    if t == "" then None
    else if t[0] == ']' then Some((NoItems, t[1..]))
    else if t[0] == ',' then ReadItem(t[1..])
    else None
  }

  /** The rest of an object, after `{`. */
  function ReadMembers(text: string): (r: Read<Members>)
    ensures r.Some? ==> |r.value.1| < |text|
    decreases |text|, 2
  {
    var t := SkipSpace(text);
    if t == "" then None
    else if t[0] == '}' then Some((NoMembers, t[1..]))
    else ReadMember(t)
  }

  function ReadMember(text: string): (r: Read<Members>)
    ensures r.Some? ==> |r.value.1| < |text|
    decreases |text|, 1
  {
    var t := SkipSpace(text);
    if t == "" || t[0] != '\"' then None
    else
      match ReadTail(t[1..])
      case None => None
      case Some((key, afterKey)) =>
        var colon := SkipSpace(afterKey);
        if colon == "" || colon[0] != ':' then None
        else
          match ReadValue(colon[1..])
          case None => None
          case Some((v, rest)) =>
            match ReadMoreMembers(rest)
            case None => None
            case Some((tail, after)) => Some((Member(key, v, tail), after))
  }

  function ReadMoreMembers(text: string): (r: Read<Members>)
    ensures r.Some? ==> |r.value.1| < |text|
    decreases |text|, 2
  {
    var t := SkipSpace(text);
    if t == "" then None
    else if t[0] == '}' then Some((NoMembers, t[1..]))
    else if t[0] == ',' then ReadMember(t[1..])
    else None
  }

  /* ---- It undoes the escapes ---- */

  lemma UnitReads(n: nat, s: string)
    requires n < 0x10000
    ensures ReadUnit(Hex4(n) + s) == Some((n, s))
  {
    var a, b, c, d := n / 0x1000, n / 0x100 % 0x10, n / 0x10 % 0x10, n % 0x10;
    HexValueOfDigit(a);
    HexValueOfDigit(b);
    HexValueOfDigit(c);
    HexValueOfDigit(d);
    FromNibbles(n);
    hide HexValue, HexDigit;
    var text := Hex4(n) + s;
    assert text[0] == HexDigit(a) && text[1] == HexDigit(b) && text[2] == HexDigit(c) && text[3] == HexDigit(d);
    assert text[4..] == s;
  }

  /** What a short escape stands for. */
  predicate ShortEscape(letter: char, c: char) {
    || (letter == '\"' && c == '\"') || (letter == '\\' && c == '\\')
    || (letter == 'n' && c == '\n') || (letter == 'r' && c == '\r') || (letter == 't' && c == '\t')
    || (letter == 'f' && c as int == 0x0c) || (letter == 'b' && c as int == 0x08)
  }

  lemma ShortReads(letter: char, c: char, s: string)
    requires ShortEscape(letter, c)
    ensures ReadChar(['\\', letter] + s) == Some((c, s))
  {
    var text := ['\\', letter] + s;
    assert text[0] == '\\' && text[1] == letter && text[2..] == s;
  }

  lemma PlainReads(c: char, s: string)
    requires ' ' <= c && c != '\"' && c != '\\'
    ensures ReadChar([c] + s) == Some((c, s))
  {
    var text := [c] + s;
    assert text[0] == c && text[1..] == s;
  }

  lemma UnicodeReads(c: char, s: string)
    requires EscapeChar(c) == UnicodeEscape(c)
    ensures ReadChar(UnicodeEscape(c) + s) == Some((c, s))
  {
    hide ReadUnit, Hex4, EscapeChar;
    var text := UnicodeEscape(c) + s;
    assert text[0] == '\\' && text[1] == 'u';
    if c as int < 0x10000 {
      UnitReads(c as int, s);
      assert text[2..] == Hex4(c as int) + s;
    } else {
      var n := c as int - 0x10000;
      var low := "\\u" + Hex4(0xdc00 + n % 0x400) + s;
      UnitReads(0xd800 + n / 0x400, low);
      UnitReads(0xdc00 + n % 0x400, s);
      assert text[2..] == Hex4(0xd800 + n / 0x400) + low;
      assert low[0] == '\\' && low[1] == 'u' && low[2..] == Hex4(0xdc00 + n % 0x400) + s;
    }
  }

  function UnicodeEscape(c: char): string {
    if c as int < 0x10000 then "\\u" + Hex4(c as int)
    else
      var n := c as int - 0x10000;
      "\\u" + Hex4(0xd800 + n / 0x400) + "\\u" + Hex4(0xdc00 + n % 0x400)
  }

  /** Which of the three forms a character is written in. */
  lemma EscapeForms(c: char)
    ensures var e := EscapeChar(c);
      || (e == [c] && ' ' <= c && c != '\"' && c != '\\')
      || (|e| == 2 && e[0] == '\\' && ShortEscape(e[1], c))
      || e == UnicodeEscape(c)
  {
    hide Hex4;
  }

  /** An escaped character reads back. */
  lemma CharReads(c: char, s: string)
    ensures ReadChar(EscapeChar(c) + s) == Some((c, s))
  {
    EscapeForms(c);
    hide ReadChar, EscapeChar, UnicodeEscape, ShortEscape;
    var e := EscapeChar(c);
    if e == [c] && ' ' <= c && c != '\"' && c != '\\' {
      PlainReads(c, s);
    } else if |e| == 2 && e[0] == '\\' && ShortEscape(e[1], c) {
      ShortReads(e[1], c, s);
      assert e == ['\\', e[1]];
    } else {
      UnicodeReads(c, s);
    }
  }

  lemma {:induction false} TailReads(t: string, s: string)
    ensures ReadTail(EscapeTail(t) + s) == Some((t, s))
    decreases |t|
  {
    hide ReadChar, EscapeChar;
    if t == "" {
      assert ("\"" + s)[1..] == s;
    } else {
      var more := EscapeTail(t[1..]) + s;
      CharReads(t[0], more);
      TailReads(t[1..], s);
      EscapeIsNotAQuote(t[0]);
      assert EscapeTail(t) + s == EscapeChar(t[0]) + more;
      assert [t[0]] + t[1..] == t;
    }
  }

  lemma EscapeIsNotAQuote(c: char)
    ensures EscapeChar(c) != "" && EscapeChar(c)[0] != '\"'
  {
    hide Hex4;
  }

  /* ---- It undoes the whole text ---- */

  predicate Solid(text: string) {
    text != "" && text[0] !in {' ', '\t', '\n', '\r'}
  }

  lemma SkipsNothing(text: string)
    requires Solid(text)
    ensures SkipSpace(text) == text && SkipSpace(" " + text) == text
  {
    assert (" " + text)[1..] == text;
  }

  /** What a value starts with: no whitespace, and nothing that closes a list. */
  predicate StartsValue(text: string) {
    Solid(text) && text[0] !in {']', '}', ','}
  }

  lemma RenderStarts(v: Json, s: string)
    requires WellFormed(v)
    ensures StartsValue(Render(v) + s)
  {
    hide RenderItems, RenderMembers, EscapeTail;
    assert (Render(v) + s)[0] == Render(v)[0];
  }

  lemma ValueAfterSpace(text: string)
    requires Solid(text)
    ensures ReadValue(" " + text) == ReadValue(text)
  {
    hide ReadTail, ReadItems, ReadMembers, NumberPrefix, SkipSpace;
    SkipsNothing(text);
  }

  lemma StringReads(t: string, s: string)
    ensures ReadValue(Quote(t) + s) == Some((Str(t), s))
  {
    hide ReadTail, ReadItems, ReadMembers, SkipSpace, EscapeTail;
    var text := Quote(t) + s;
    assert text[0] == '\"' && text[1..] == EscapeTail(t) + s;
    SkipsNothing(text);
    TailReads(t, s);
  }

  lemma WordReads(v: Json, s: string)
    requires v.Null? || v.Bool?
    ensures ReadValue(Render(v) + s) == Some((v, s))
  {
    hide ReadTail, ReadItems, ReadMembers, NumberPrefix, SkipSpace;
    var text := Render(v) + s;
    assert text[0] == Render(v)[0];
    SkipsNothing(text);
    assert Render(v) <= text && text[|Render(v)|..] == s;
    assert "null"[0] == 'n' && "true"[0] == 't' && "false"[0] == 'f';
    if v == Bool(true) {
      assert !("null" <= text) by { assert text[0] == 't'; }
    } else if v == Bool(false) {
      assert !("null" <= text) && !("true" <= text) by { assert text[0] == 'f'; }
    }
  }

  lemma NumberReads(number: string, s: string)
    requires NumberText(number) && Stops(s)
    ensures ReadValue(number + s) == Some((Number(number), s))
  {
    hide ReadTail, ReadItems, ReadMembers, SkipSpace;
    var text := number + s;
    assert text[0] == number[0];
    SkipsNothing(text);
    ReadNumber(number, s);
    hide NumberPrefix;
    assert text[|number|..] == s;
    assert "null"[0] == 'n' && "true"[0] == 't' && "false"[0] == 'f';
    assert !("null" <= text) && !("true" <= text) && !("false" <= text);
  }

  lemma ArrayReads(text: string, items: Items, s: string)
    requires ReadItems(text) == Some((items, s))
    ensures ReadValue("[" + text) == Some((Arr(items), s))
  {
    hide ReadTail, ReadItems, ReadMembers, NumberPrefix, SkipSpace;
    SkipsNothing("[" + text);
    assert ("[" + text)[1..] == text;
  }

  lemma ObjectReads(text: string, members: Members, s: string)
    requires ReadMembers(text) == Some((members, s))
    ensures ReadValue("{" + text) == Some((Obj(members), s))
  {
    hide ReadTail, ReadItems, ReadMembers, NumberPrefix, SkipSpace;
    SkipsNothing("{" + text);
    assert ("{" + text)[1..] == text;
  }

  lemma MemberReads(key: string, text: string, v: Json, rest: string, tail: Members, s: string)
    requires Solid(text) && ReadValue(text) == Some((v, rest)) && ReadMoreMembers(rest) == Some((tail, s))
    ensures var entry := Quote(key) + (": " + text);
      && ReadMember(entry) == Some((Member(key, v, tail), s))
      && ReadMember(" " + entry) == Some((Member(key, v, tail), s))
  {
    hide ReadTail, ReadValue, ReadMoreMembers, SkipSpace, EscapeTail;
    var entry, colon := Quote(key) + (": " + text), ": " + text;
    assert entry[0] == '\"' && entry[1..] == EscapeTail(key) + colon;
    SkipsNothing(entry);
    TailReads(key, colon);
    SkipsNothing(colon);
    assert colon[0] == ':' && colon[1..] == " " + text;
    ValueAfterSpace(text);
  }

  /** Every rendered value reads back, whatever follows it. */
  lemma {:induction false} ValueReads(v: Json, s: string)
    requires WellFormed(v) && Stops(s)
    ensures ReadValue(Render(v) + s) == Some((v, s))
    decreases v
  {
    hide ReadValue, ReadItems, ReadMembers, RenderItems, RenderMembers;
    match v
    case Null => WordReads(v, s);
    case Bool(_) => WordReads(v, s);
    case Number(text) => NumberReads(text, s);
    case Str(t) => StringReads(t, s);
    case Arr(items) =>
      ItemsRead(items, s);
      ArrayReads(RenderItems(items) + s, items, s);
      assert Render(v) + s == "[" + (RenderItems(items) + s);
    case Obj(members) =>
      MembersRead(members, s);
      ObjectReads(RenderMembers(members) + s, members, s);
      assert Render(v) + s == "{" + (RenderMembers(members) + s);
  }

  lemma {:induction false} ItemsRead(items: Items, s: string)
    requires WellFormedItems(items)
    ensures ReadItems(RenderItems(items) + s) == Some((items, s))
    decreases items, 1
  {
    hide ReadValue, ReadMoreItems, Render, RenderMoreItems;
    var text := RenderItems(items) + s;
    match items
    case NoItems =>
      assert text[0] == ']' && text[1..] == s;
      SkipsNothing(text);
    case Item(head, tail) =>
      ItemReads(head, tail, s);
      RenderStarts(head, RenderMoreItems(tail) + s);
      assert text == Render(head) + (RenderMoreItems(tail) + s);
      SkipsNothing(text);
  }

  lemma {:induction false} ItemReads(head: Json, tail: Items, s: string)
    requires WellFormed(head) && WellFormedItems(tail)
    ensures ReadItem(Render(head) + (RenderMoreItems(tail) + s)) == Some((Item(head, tail), s))
    decreases Item(head, tail), 0
  {
    hide ReadValue, ReadMoreItems, Render, RenderMoreItems;
    MoreItemsStop(tail, s);
    ValueReads(head, RenderMoreItems(tail) + s);
    MoreItemsRead(tail, s);
  }

  lemma MoreItemsStop(items: Items, s: string)
    ensures Stops(RenderMoreItems(items) + s)
  {
    hide Render;
    assert (RenderMoreItems(items) + s)[0] == RenderMoreItems(items)[0];
  }

  lemma {:induction false} MoreItemsRead(items: Items, s: string)
    requires WellFormedItems(items)
    ensures ReadMoreItems(RenderMoreItems(items) + s) == Some((items, s))
    decreases items, 1
  {
    hide ReadValue, Render;
    var text := RenderMoreItems(items) + s;
    SkipsNothing(text);
    match items
    case NoItems =>
      assert text[0] == ']' && text[1..] == s;
    case Item(head, tail) =>
      ItemReads(head, tail, s);
      RenderStarts(head, RenderMoreItems(tail) + s);
      var item := Render(head) + (RenderMoreItems(tail) + s);
      hide RenderMoreItems;
      ValueAfterSpace(item);
      assert text == ", " + item;
      assert text[0] == ',' && text[1..] == " " + item;
  }

  lemma {:induction false} MembersRead(ms: Members, s: string)
    requires WellFormedMembers(ms)
    ensures ReadMembers(RenderMembers(ms) + s) == Some((ms, s))
    decreases ms, 1
  {
    hide ReadMember, Render, RenderMoreMembers, EscapeTail;
    var text := RenderMembers(ms) + s;
    match ms
    case NoMembers =>
      assert text[0] == '}' && text[1..] == s;
      SkipsNothing(text);
    case Member(k, v, rest) =>
      EntryReads(k, v, rest, s);
      assert text == Entry(k, v, rest, s);
      assert text[0] == '\"';
      SkipsNothing(text);
  }

  function Entry(k: string, v: Json, rest: Members, s: string): string {
    Quote(k) + (": " + (Render(v) + (RenderMoreMembers(rest) + s)))
  }

  lemma {:induction false} EntryReads(k: string, v: Json, rest: Members, s: string)
    requires WellFormed(v) && WellFormedMembers(rest)
    ensures ReadMember(Entry(k, v, rest, s)) == Some((Member(k, v, rest), s))
    ensures ReadMember(" " + Entry(k, v, rest, s)) == Some((Member(k, v, rest), s))
    decreases Member(k, v, rest), 0
  {
    hide ReadMember, ReadMoreMembers, ReadValue, Render, RenderMoreMembers, Quote;
    var more := RenderMoreMembers(rest) + s;
    MoreMembersStop(rest, s);
    ValueReads(v, more);
    MoreMembersRead(rest, s);
    RenderStarts(v, more);
    MemberReads(k, Render(v) + more, v, more, rest, s);
  }

  lemma MoreMembersStop(ms: Members, s: string)
    ensures Stops(RenderMoreMembers(ms) + s)
  {
    hide Render, Quote;
    assert (RenderMoreMembers(ms) + s)[0] == RenderMoreMembers(ms)[0];
  }

  lemma {:induction false} MoreMembersRead(ms: Members, s: string)
    requires WellFormedMembers(ms)
    ensures ReadMoreMembers(RenderMoreMembers(ms) + s) == Some((ms, s))
    decreases ms, 1
  {
    hide ReadMember, Render, EscapeTail;
    var text := RenderMoreMembers(ms) + s;
    SkipsNothing(text);
    match ms
    case NoMembers =>
      assert text[0] == '}' && text[1..] == s;
    case Member(k, v, rest) =>
      EntryReads(k, v, rest, s);
      assert text == ", " + Entry(k, v, rest, s);
      assert text[0] == ',' && text[1..] == " " + Entry(k, v, rest, s);
  }

  /** The canonical text of a value reads back as that value, its keys sorted: nothing
      is left over and the meaning is the same. */
  lemma CanonicalTextReadsBack(v: PyJson)
    ensures ReadValue(CanonicalText(v)) == Some((SortKeys(v), "")) && Denote(SortKeys(v)) == Denote(v)
  {
    SortKeysSorts(v);
    ValueReads(SortKeys(v), "");
    assert Render(SortKeys(v)) + "" == Render(SortKeys(v));
  }

  /** And its bytes are that text, one octet a character. */
  lemma CanonicalBytesSpell(v: PyJson)
    ensures |CanonicalBytes(v)| == |CanonicalText(v)|
    ensures forall i :: 0 <= i < |CanonicalText(v)| ==> CanonicalBytes(v)[i] == CanonicalText(v)[i] as int
  {
    hide CanonicalText;
  }

  /* ---- What the reader cannot tell: order and spacing ---- */

  /** `sort_keys` orders keys by code point at their first difference, a proper prefix first. */
  lemma {:induction false} BeforeIff(a: string, b: string)
    ensures Before(a, b) <==> exists k :: FirstDiffersAt(a, b, k)
    decreases |b|
  {
    if a != "" && b != "" {
      BeforeIff(a[1..], b[1..]);
      if k :| FirstDiffersAt(a, b, k) {
        if k > 0 {
          assert a[0] == a[..k][0] == b[..k][0] == b[0];
          assert a[1..][..k - 1] == a[..k][1..] && b[1..][..k - 1] == b[..k][1..];
          assert FirstDiffersAt(a[1..], b[1..], k - 1);
        }
      }
      if a[0] < b[0] {
        assert FirstDiffersAt(a, b, 0);
      } else if a[0] == b[0] && Before(a[1..], b[1..]) {
        var k :| FirstDiffersAt(a[1..], b[1..], k);
        assert a[..k + 1] == [a[0]] + a[1..][..k] && b[..k + 1] == [b[0]] + b[1..][..k];
        assert FirstDiffersAt(a, b, k + 1);
      }
    } else if b != "" {
      assert FirstDiffersAt(a, b, 0);
    }
  }

  predicate FirstDiffersAt(a: string, b: string, k: int) {
    0 <= k <= |a| && k < |b| && a[..k] == b[..k] && (k == |a| || a[k] < b[k])
  }

  /** Python's default separators, exactly: a comma and a space, a colon and a space. */
  lemma ItemSeparator(v: Json, w: Json)
    ensures Render(Arr(Item(v, Item(w, NoItems)))) == "[" + Render(v) + ", " + Render(w) + "]"
  {
    LastItem(w);
    hide RenderMoreItems;
    var more := RenderMoreItems(Item(w, NoItems));
    assert Render(Arr(Item(v, Item(w, NoItems)))) == "[" + (Render(v) + more);
  }

  lemma LastItem(w: Json)
    ensures RenderMoreItems(Item(w, NoItems)) == ", " + (Render(w) + "]")
  {
    assert RenderMoreItems(NoItems) == "]";
    hide Render;
  }

  lemma MemberSeparators(a: string, b: string, v: Json, w: Json)
    ensures Render(Obj(Member(a, v, Member(b, w, NoMembers))))
         == "{" + Quote(a) + ": " + Render(v) + ", " + Quote(b) + ": " + Render(w) + "}"
  {
    LastMember(b, w);
    hide RenderMoreMembers, Quote;
    var more := RenderMoreMembers(Member(b, w, NoMembers));
    assert Render(Obj(Member(a, v, Member(b, w, NoMembers)))) == "{" + (Quote(a) + (": " + (Render(v) + more)));
  }

  lemma LastMember(b: string, w: Json)
    ensures RenderMoreMembers(Member(b, w, NoMembers)) == ", " + (Quote(b) + (": " + (Render(w) + "}")))
  {
    assert RenderMoreMembers(NoMembers) == "}";
    hide Render, Quote;
  }
}

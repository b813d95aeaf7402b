/**
 * JSON text (RFC 8259) as Python writes it with json.dumps and reads it with json.loads, for the
 * values this worker exchanges: null, booleans, natural numbers, strings, lists and objects.
 */
module Json {
  import opened Wrappers
  import opened Text

  datatype Json =
    | Null
    | Bool(b: bool)
    | Num(n: nat)
    | Str(s: string)
    | Arr(items: seq<Json>)
    | Obj(fields: seq<Field>)

  datatype Field = Field(key: string, value: Json)

  /** The separators argument: after an item, and between a key and its value. */
  datatype Style = Style(item: string, colon: string)

  const COMPACT := Style(",", ":")
  const DEFAULT := Style(", ", ": ")

  predicate Space(c: char) { c == ' ' || c == '\t' || c == '\n' || c == '\r' }

  /** Separators a reader accepts: the mark, then spaces. */
  predicate StyleOk(style: Style) {
    && style.item != "" && style.item[0] == ',' && (forall c :: c in style.item[1..] ==> c == ' ')
    && style.colon != "" && style.colon[0] == ':' && (forall c :: c in style.colon[1..] ==> c == ' ')
  }

  // ----- strings -----

  predicate Printable(c: char) { ' ' <= c <= '~' }

  function HexDigit(n: int): (c: char)
    requires 0 <= n < 16
    ensures Printable(c) && HexValue(c) == Some(n)
  {
    if n < 10 then ('0' as int + n) as char else ('a' as int + n - 10) as char
  }

  function HexValue(c: char): (r: Option<int>)
    ensures r.Some? ==> 0 <= r.value < 16
  {
    if '0' <= c <= '9' then Some(c as int - '0' as int)
    else if 'a' <= c <= 'f' then Some(c as int - 'a' as int + 10)
    else if 'A' <= c <= 'F' then Some(c as int - 'A' as int + 10)
    else None
  }

  /** \uXXXX for one UTF-16 code unit. */
  function Unit(n: int): (r: string)
    requires 0 <= n < 0x10000
    ensures |r| == 6
  {
    ['\\', 'u', HexDigit(n / 4096), HexDigit(n / 256 % 16), HexDigit(n / 16 % 16), HexDigit(n % 16)]
  }

  /** The two-character escapes. */
  function Short(c: char): Option<char> {
    if c == '"' then Some('"')
    else if c == '\\' then Some('\\')
    else if c == '\n' then Some('n')
    else if c == '\r' then Some('r')
    else if c == '\t' then Some('t')
    else if c as int == 8 then Some('b')
    else if c as int == 12 then Some('f')
    else None
  }

  /** One character with ensure_ascii=True: outside the plane of sixteen bits a surrogate pair. */
  function EscapeChar(c: char): (r: string)
    ensures r != ""
  {
    var n := c as int;
    if Short(c).Some? then ['\\', Short(c).value]
    else if Printable(c) then [c]
    else if n < 0x10000 then Unit(n)
    else Unit(0xD800 + (n - 0x10000) / 1024) + Unit(0xDC00 + (n - 0x10000) % 1024)
  }

  function Escape(s: string): string {
    if s == "" then "" else EscapeChar(s[0]) + Escape(s[1..])
  }

  function ReadUnit(t: string): (r: Option<int>)
    ensures r.Some? ==> 0 <= r.value < 0x10000 && |t| >= 6
  {
    if |t| < 6 || t[0] != '\\' || t[1] != 'u' then None
    else
      match (HexValue(t[2]), HexValue(t[3]), HexValue(t[4]), HexValue(t[5]))
      case (Some(a), Some(b), Some(c), Some(d)) => Some(a * 4096 + b * 256 + c * 16 + d)
      case _ => None
  }

  function Unshort(c: char): Option<char> {
    if c == '"' || c == '\\' || c == '/' then Some(c)
    else if c == 'n' then Some('\n')
    else if c == 'r' then Some('\r')
    else if c == 't' then Some('\t')
    else if c == 'b' then Some(8 as char)
    else if c == 'f' then Some(12 as char)
    else None
  }

  datatype Read<T> = Read(value: T, rest: string)

  /**
   * The next character inside a string literal.  A lone surrogate has no scalar value and is
   * refused; the writer above never produces one.
   */
  function ReadChar(t: string): (r: Option<Read<char>>)
    ensures r.Some? ==> |r.value.rest| < |t|
  {
    if t == "" || t[0] == '"' || t[0] < ' ' then None
    else if t[0] != '\\' then Some(Read(t[0], t[1..]))
    else if |t| < 2 then None
    else if t[1] != 'u' then
      if Unshort(t[1]).Some? then Some(Read(Unshort(t[1]).value, t[2..])) else None
    else
      match ReadUnit(t)
      case None => None
      case Some(high) =>
        if 0xD800 <= high < 0xDC00 then
          match ReadUnit(t[6..])
          case Some(low) =>
            if 0xDC00 <= low < 0xE000
            then Some(Read((0x10000 + (high - 0xD800) * 1024 + (low - 0xDC00)) as char, t[12..]))
            else None
          case None => None
        else if 0xDC00 <= high < 0xE000 then None
        else Some(Read(high as char, t[6..]))
  }

  /** The rest of a string literal whose opening quote has been read. */
  function ReadString(t: string): (r: Option<Read<string>>)
    ensures r.Some? ==> |r.value.rest| < |t|
    decreases |t|
  {
    if t != "" && t[0] == '"' then Some(Read("", t[1..]))
    else
      match ReadChar(t)
      case None => None
      case Some(c) =>
        match ReadString(c.rest)
        case None => None
        case Some(s) => Some(Read([c.value] + s.value, s.rest))
  }

  lemma HexDigits(n: int)
    requires 0 <= n
    ensures n == n / 4096 * 4096 + n / 256 % 16 * 256 + n / 16 % 16 * 16 + n % 16
  {
    assert n / 16 == n / 256 * 16 + n / 16 % 16;
    assert n / 256 == n / 4096 * 16 + n / 256 % 16;
  }

  lemma UnitRoundTrip(n: int, rest: string)
    requires 0 <= n < 0x10000
    ensures ReadUnit(Unit(n) + rest) == Some(n) && (Unit(n) + rest)[6..] == rest
  {
    var t := Unit(n) + rest;
    HexDigits(n);
    assert t[..6] == Unit(n);
    assert t[2] == HexDigit(n / 4096) && t[3] == HexDigit(n / 256 % 16);
    assert t[4] == HexDigit(n / 16 % 16) && t[5] == HexDigit(n % 16);
  }

  lemma PairRoundTrip(c: char, rest: string)
    requires 0x10000 <= c as int
    ensures ReadChar(EscapeChar(c) + rest) == Some(Read(c, rest)) && EscapeChar(c)[0] == '\\'
  {
    var m := c as int - 0x10000;
    var high, low := 0xD800 + m / 1024, 0xDC00 + m % 1024;
    var t := EscapeChar(c) + rest;
    assert t == Unit(high) + (Unit(low) + rest);
    UnitRoundTrip(high, Unit(low) + rest);
    UnitRoundTrip(low, rest);
    PairRead(t, high, low);
    assert t[12..] == t[6..][6..];
  }

  lemma PairRead(t: string, high: int, low: int)
    requires ReadUnit(t) == Some(high) && 0xD800 <= high < 0xDC00
    requires ReadUnit(t[6..]) == Some(low) && 0xDC00 <= low < 0xE000
    ensures ReadChar(t) == Some(Read((0x10000 + (high - 0xD800) * 1024 + (low - 0xDC00)) as char, t[12..]))
  {
  }

  lemma CharRoundTrip(c: char, rest: string)
    ensures ReadChar(EscapeChar(c) + rest) == Some(Read(c, rest))
    ensures EscapeChar(c)[0] != '"'
  {
    var n := c as int;
    var t := EscapeChar(c) + rest;
    if 0x10000 <= n {
      PairRoundTrip(c, rest);
    } else if Short(c).Some? {
      assert t[0] == '\\' && t[1] == Short(c).value && t[2..] == rest;
    } else if Printable(c) {
      assert t[0] == c && t[1..] == rest;
    } else {
      UnitRoundTrip(n, rest);
      assert t[0] == Unit(n)[0] && t[1] == Unit(n)[1];
    }
  }

  /** Reading back an escaped string gives the string, surrogate pairs included. */
  lemma {:induction false} StringRoundTrip(s: string, rest: string)
    ensures ReadString(Escape(s) + "\"" + rest) == Some(Read(s, rest))
  {
    if s == "" {
      assert Escape(s) + "\"" + rest == "\"" + rest;
      assert ("\"" + rest)[1..] == rest;
    } else {
      var tail := Escape(s[1..]) + "\"" + rest;
      assert Escape(s) + "\"" + rest == EscapeChar(s[0]) + tail;
      StringRoundTrip(s[1..], rest);
      StringStep(s[0], tail, s[1..], rest);
      assert s == [s[0]] + s[1..];
    }
  }

  lemma StringStep(c: char, tail: string, s: string, rest: string)
    requires ReadString(tail) == Some(Read(s, rest))
    ensures ReadString(EscapeChar(c) + tail) == Some(Read([c] + s, rest))
  {
    CharRoundTrip(c, tail);
    assert (EscapeChar(c) + tail)[0] == EscapeChar(c)[0];
  }

  lemma UnitPrintable(n: int)
    requires 0 <= n < 0x10000
    ensures forall c :: c in Unit(n) ==> Printable(c)
  {
  }

  lemma {:induction false} EscapePrintable(s: string)
    ensures forall c :: c in Escape(s) ==> Printable(c)
  {
    if s != "" {
      var n := s[0] as int;
      if n >= 0x10000 {
        UnitPrintable(0xD800 + (n - 0x10000) / 1024);
        UnitPrintable(0xDC00 + (n - 0x10000) % 1024);
      } else {
        UnitPrintable(n);
      }
      EscapePrintable(s[1..]);
    }
  }

  // ----- numbers -----

  predicate Digit(c: char) { '0' <= c <= '9' }

  function Decimal(n: nat): (r: string)
    ensures r != "" && forall c :: c in r ==> Digit(c)
  {
    var d := [('0' as int + n % 10) as char];
    if n < 10 then d else Decimal(n / 10) + d
  }

  /** How many digits t starts with. */
  function DigitCount(t: string): (k: nat)
    ensures k <= |t|
    ensures forall i :: 0 <= i < k ==> Digit(t[i])
    ensures k < |t| ==> !Digit(t[k])
  {
    if t == "" || !Digit(t[0]) then 0 else 1 + DigitCount(t[1..])
  }

  function Value(t: string): nat
    requires forall c :: c in t ==> Digit(c)
  {
    if t == "" then 0
    else
      var last := t[|t| - 1];
      assert Digit(last);
      Value(t[..|t| - 1]) * 10 + (last as int - '0' as int)
  }

  /** No leading zero, so a reader that stops after one takes nothing off a number. */
  lemma {:induction false} DecimalRoundTrip(n: nat)
    ensures Value(Decimal(n)) == n
    ensures Decimal(n)[0] == '0' <==> n == 0
  {
    var r := Decimal(n);
    if n < 10 {
      assert Value(r[..|r| - 1]) == 0;
    } else {
      assert r[..|r| - 1] == Decimal(n / 10);
      DecimalRoundTrip(n / 10);
      assert r[|r| - 1] as int - '0' as int == n % 10;
    }
  }

  /** What follows a number must not extend it. */
  predicate NoDigit(rest: string) { rest != "" ==> !Digit(rest[0]) }

  lemma {:induction false} DigitCountOf(d: string, rest: string)
    requires NoDigit(rest) && forall c :: c in d ==> Digit(c)
    ensures DigitCount(d + rest) == |d|
  {
    if d == "" {
      assert d + rest == rest;
    } else {
      assert (d + rest)[1..] == d[1..] + rest;
      DigitCountOf(d[1..], rest);
    }
  }

  // ----- writing -----

  function Quote(s: string): string { "\"" + Escape(s) + "\"" }

  function Dumps(v: Json, style: Style): string
    decreases v, 1
  {
    match v
    case Null => "null"
    case Bool(b) => if b then "true" else "false"
    case Num(n) => Decimal(n)
    case Str(s) => Quote(s)
    case Arr(items) => "[" + DumpItems(items, style) + "]"
    case Obj(fields) => "{" + DumpFields(fields, style) + "}"
  }

  function DumpItems(items: seq<Json>, style: Style): string
    decreases items, 0
  {
    if items == [] then ""
    else if |items| == 1 then Dumps(items[0], style)
    else Dumps(items[0], style) + style.item + DumpItems(items[1..], style)
  }

  function DumpFields(fields: seq<Field>, style: Style): string
    decreases fields, 0
  {
    if fields == [] then ""
    else
      var first := Quote(fields[0].key) + style.colon + Dumps(fields[0].value, style);
      if |fields| == 1 then first else first + style.item + DumpFields(fields[1..], style)
  }

  // ----- reading -----

  function SkipSpace(t: string): (r: string)
    ensures |r| <= |t|
    ensures r != "" ==> !Space(r[0])
  {
    if t != "" && Space(t[0]) then SkipSpace(t[1..]) else t
  }

  function ReadValue(t: string): (r: Option<Read<Json>>)
    ensures r.Some? ==> |r.value.rest| < |t|
    decreases |t|, 1
  {
    if StartsWith(t, "null") then Some(Read(Null, t[4..]))
    else if StartsWith(t, "true") then Some(Read(Bool(true), t[4..]))
    else if StartsWith(t, "false") then Some(Read(Bool(false), t[5..]))
    else if t == "" then None
    else if Digit(t[0]) then
      var k := if t[0] == '0' then 1 else DigitCount(t);
      Some(Read(Num(Value(t[..k])), t[k..]))
    else if t[0] == '"' then
      match ReadString(t[1..])
      case None => None
      case Some(s) => Some(Read(Str(s.value), s.rest))
    else if t[0] == '[' then
      var u := SkipSpace(t[1..]);
      if u != "" && u[0] == ']' then Some(Read(Arr([]), u[1..]))
      else
        match ReadItems(u)
        case None => None
        case Some(r) => Some(Read(Arr(r.value), r.rest))
    else if t[0] == '{' then
      var u := SkipSpace(t[1..]);
      if u != "" && u[0] == '}' then Some(Read(Obj([]), u[1..]))
      else
        match ReadFields(u)
        case None => None
        case Some(r) => Some(Read(Obj(r.value), r.rest))
    else None
  }

  /** The items of a list, and the bracket that ends it. */
  function ReadItems(t: string): (r: Option<Read<seq<Json>>>)
    ensures r.Some? ==> |r.value.rest| < |t|
    decreases |t|, 2
  {
    match ReadValue(t)
    case None => None
    case Some(first) =>
      var u := SkipSpace(first.rest);
      if u != "" && u[0] == ']' then Some(Read([first.value], u[1..]))
      else if u != "" && u[0] == ',' then
        match ReadItems(SkipSpace(u[1..]))
        case None => None
        case Some(more) => Some(Read([first.value] + more.value, more.rest))
      else None
  }

  function ReadFields(t: string): (r: Option<Read<seq<Field>>>)
    ensures r.Some? ==> |r.value.rest| < |t|
    decreases |t|, 2
  {
    if t == "" || t[0] != '"' then None
    else
      match ReadString(t[1..])
      case None => None
      case Some(key) =>
        var u := SkipSpace(key.rest);
        if u == "" || u[0] != ':' then None
        else
          match ReadValue(SkipSpace(u[1..]))
          case None => None
          case Some(value) =>
            var w := SkipSpace(value.rest);
            var field := Field(key.value, value.value);
            if w != "" && w[0] == '}' then Some(Read([field], w[1..]))
            else if w != "" && w[0] == ',' then
              match ReadFields(SkipSpace(w[1..]))
              case None => None
              case Some(more) => Some(Read([field] + more.value, more.rest))
            else None
  }

  /** json.loads: one value, with nothing but space around it. */
  function Loads(t: string): Option<Json> {
    match ReadValue(SkipSpace(t))
    case None => None
    case Some(r) => if SkipSpace(r.rest) == "" then Some(r.value) else None
  }

  // ----- reading what was written -----

  /** How a written value starts: never with space, nor with a closing bracket. */
  lemma DumpsStart(v: Json, style: Style, rest: string)
    ensures Dumps(v, style) != ""
    ensures
      var t := Dumps(v, style) + rest;
      !Space(t[0]) && t[0] != ']' && t[0] != '}' && SkipSpace(t) == t
  {
    if v.Num? { assert Decimal(v.n)[0] in Decimal(v.n); }
    var d := Dumps(v, style);
    assert (d + rest)[0] == d[0];
  }

  lemma {:induction false} SkipSpaces(spaces: string, t: string)
    requires forall c :: c in spaces ==> c == ' '
    ensures SkipSpace(spaces + t) == SkipSpace(t)
  {
    if spaces == "" {
      assert spaces + t == t;
    } else {
      assert (spaces + t)[1..] == spaces[1..] + t;
      assert (spaces + t)[0] == spaces[0] && spaces[0] in spaces;
      assert forall c :: c in spaces[1..] ==> c in spaces;
      SkipSpaces(spaces[1..], t);
    }
  }

  /** Reading over a separator leaves what follows it. */
  lemma SkipSeparator(separator: string, t: string)
    requires separator != "" && forall c :: c in separator[1..] ==> c == ' '
    ensures (separator + t)[0] == separator[0]
    ensures SkipSpace((separator + t)[1..]) == SkipSpace(t)
  {
    assert (separator + t)[1..] == separator[1..] + t;
    SkipSpaces(separator[1..], t);
  }

  /** Text that starts otherwise is none of the three words. */
  lemma NotWord(t: string)
    requires t != "" && t[0] != 'n' && t[0] != 't' && t[0] != 'f'
    ensures !StartsWith(t, "null") && !StartsWith(t, "true") && !StartsWith(t, "false")
  {
    assert |t| >= 4 ==> t[..4][0] == t[0];
    assert |t| >= 5 ==> t[..5][0] == t[0];
  }

  lemma WordRoundTrip(b: bool, rest: string)
    ensures ReadValue((if b then "true" else "false") + rest) == Some(Read(Bool(b), rest))
  {
    var t := (if b then "true" else "false") + rest;
    assert t[..4][0] == t[0];
    if b {
      assert t[..4] == "true" && t[4..] == rest;
    } else {
      assert t[..5] == "false" && t[5..] == rest;
    }
  }

  lemma NumberRoundTrip(n: nat, rest: string)
    requires NoDigit(rest)
    ensures ReadValue(Decimal(n) + rest) == Some(Read(Num(n), rest))
  {
    var d := Decimal(n);
    var t := d + rest;
    assert t[0] == d[0] && d[0] in d && Digit(t[0]);
    DecimalRoundTrip(n);
    DigitCountOf(d, rest);
    var k := if t[0] == '0' then 1 else DigitCount(t);
    assert k == |d|;
    assert t[..k] == d && t[k..] == rest;
    NotWord(t);
  }

  lemma QuoteRoundTrip(s: string, rest: string)
    ensures
      var t := Quote(s) + rest;
      t[0] == '"' && ReadString(t[1..]) == Some(Read(s, rest))
  {
    var t := Quote(s) + rest;
    assert t[1..] == Escape(s) + "\"" + rest;
    StringRoundTrip(s, rest);
  }

  /** Reading what was written gives the value and leaves what follows. */
  lemma {:induction false} ValueRoundTrip(v: Json, style: Style, rest: string)
    requires StyleOk(style) && NoDigit(rest)
    ensures ReadValue(Dumps(v, style) + rest) == Some(Read(v, rest))
    decreases v, 1
  {
    var t := Dumps(v, style) + rest;
    match v
    case Null => assert t[..4] == "null" && t[4..] == rest;
    case Bool(b) => WordRoundTrip(b, rest);
    case Num(n) => NumberRoundTrip(n, rest);
    case Str(s) =>
      QuoteRoundTrip(s, rest);
      NotWord(t);
    case Arr(items) => ArrayRoundTrip(items, style, rest);
    case Obj(fields) => ObjectRoundTrip(fields, style, rest);
  }

  lemma {:induction false} ArrayRoundTrip(items: seq<Json>, style: Style, rest: string)
    requires StyleOk(style)
    ensures ReadValue("[" + DumpItems(items, style) + "]" + rest) == Some(Read(Arr(items), rest))
    decreases items, 3
  {
    var t := "[" + DumpItems(items, style) + "]" + rest;
    var inner := DumpItems(items, style) + "]" + rest;
    assert t[0] == '[' && t[1..] == inner;
    if items == [] {
      assert inner == "]" + rest && inner[1..] == rest;
      NotWord(t);
    } else {
      ItemsStart(items, style, "]" + rest);
      assert inner == DumpItems(items, style) + ("]" + rest);
      ItemsRoundTrip(items, style, rest);
      ArrayRead(t, inner, items, rest);
    }
  }

  lemma ArrayRead(t: string, inner: string, items: seq<Json>, rest: string)
    requires t != "" && t[0] == '[' && t[1..] == inner && inner != "" && inner[0] != ']' && SkipSpace(inner) == inner
    requires ReadItems(inner) == Some(Read(items, rest))
    ensures ReadValue(t) == Some(Read(Arr(items), rest))
  {
    NotWord(t);
  }

  lemma ItemsStart(items: seq<Json>, style: Style, rest: string)
    requires items != []
    ensures
      var t := DumpItems(items, style) + rest;
      t != "" && t[0] != ']' && SkipSpace(t) == t
  {
    var first := Dumps(items[0], style);
    var more := if |items| == 1 then rest else style.item + DumpItems(items[1..], style) + rest;
    assert DumpItems(items, style) + rest == first + more;
    DumpsStart(items[0], style, more);
  }

  lemma Regroup(a: string, b: string, c: string)
    ensures a + b + c == a + (b + c)
  {
  }

  lemma Regroup5(a: string, b: string, c: string, d: string, e: string)
    ensures a + b + c + d + e == a + (b + (c + d + e))
  {
    Regroup(a, b, c);
    Regroup(a, b + c, d);
    Regroup(a, b + c + d, e);
    Regroup(b, c, d);
    Regroup(b, c + d, e);
  }

  /** A list is its first item, the separator and the rest of the list. */
  lemma ItemsText(items: seq<Json>, style: Style, rest: string)
    requires items != []
    ensures |items| == 1 ==> DumpItems(items, style) + "]" + rest == Dumps(items[0], style) + ("]" + rest)
    ensures |items| > 1 ==>
              DumpItems(items, style) + "]" + rest
              == Dumps(items[0], style) + (style.item + (DumpItems(items[1..], style) + "]" + rest))
  {
    if |items| == 1 {
      Regroup(Dumps(items[0], style), "]", rest);
    } else {
      Regroup5(Dumps(items[0], style), style.item, DumpItems(items[1..], style), "]", rest);
    }
  }

  lemma {:induction false} ItemsRoundTrip(items: seq<Json>, style: Style, rest: string)
    requires StyleOk(style) && items != []
    ensures ReadItems(DumpItems(items, style) + "]" + rest) == Some(Read(items, rest))
    decreases items, 2
  {
    ItemsText(items, style, rest);
    var text := Dumps(items[0], style);
    if |items| == 1 {
      ValueRoundTrip(items[0], style, "]" + rest);
      LastItem(items[0], text, rest);
      assert items == [items[0]];
    } else {
      var tail := DumpItems(items[1..], style) + "]" + rest;
      assert NoDigit(style.item + tail) by { SkipSeparator(style.item, tail); }
      ValueRoundTrip(items[0], style, style.item + tail);
      ItemsRoundTrip(items[1..], style, rest);
      TailStart(items[1..], style, rest);
      NextItem(items[0], text, style, tail, items[1..], rest);
      assert items == [items[0]] + items[1..];
    }
  }

  lemma TailStart(items: seq<Json>, style: Style, rest: string)
    requires items != []
    ensures var tail := DumpItems(items, style) + "]" + rest; SkipSpace(tail) == tail
  {
    assert DumpItems(items, style) + "]" + rest == DumpItems(items, style) + ("]" + rest);
    ItemsStart(items, style, "]" + rest);
  }

  lemma LastItem(v: Json, text: string, rest: string)
    requires ReadValue(text + ("]" + rest)) == Some(Read(v, "]" + rest))
    ensures ReadItems(text + ("]" + rest)) == Some(Read([v], rest))
  {
    assert ("]" + rest)[0] == ']' && ("]" + rest)[1..] == rest;
  }

  lemma NextItem(v: Json, text: string, style: Style, tail: string, items: seq<Json>, rest: string)
    requires StyleOk(style) && ReadValue(text + (style.item + tail)) == Some(Read(v, style.item + tail))
    requires SkipSpace(tail) == tail && ReadItems(tail) == Some(Read(items, rest))
    ensures ReadItems(text + (style.item + tail)) == Some(Read([v] + items, rest))
  {
    SkipSeparator(style.item, tail);
  }

  lemma {:induction false} ObjectRoundTrip(fields: seq<Field>, style: Style, rest: string)
    requires StyleOk(style)
    ensures ReadValue("{" + DumpFields(fields, style) + "}" + rest) == Some(Read(Obj(fields), rest))
    decreases fields, 3
  {
    var t := "{" + DumpFields(fields, style) + "}" + rest;
    var inner := DumpFields(fields, style) + "}" + rest;
    NotWord(t);
    if fields == [] {
      assert t[1..] == "}" + rest && ("}" + rest)[1..] == rest;
    } else {
      assert t[1..] == inner;
      FieldsStart(fields, style);
      assert inner[0] == '"';
      FieldsRoundTrip(fields, style, rest);
      ObjectRead(t, inner, fields, rest);
    }
  }

  lemma ObjectRead(t: string, inner: string, fields: seq<Field>, rest: string)
    requires t != "" && t[0] == '{' && t[1..] == inner && inner != "" && inner[0] == '"'
    requires ReadFields(inner) == Some(Read(fields, rest))
    ensures ReadValue(t) == Some(Read(Obj(fields), rest))
  {
    NotWord(t);
  }

  lemma FieldsStart(fields: seq<Field>, style: Style)
    requires fields != []
    ensures DumpFields(fields, style) != "" && DumpFields(fields, style)[0] == '"'
  {
  }

  /** One field as written is read as that field, whatever bracket or separator follows. */
  lemma FieldRoundTrip(key: string, value: Json, text: string, style: Style, after: string)
    requires StyleOk(style) && SkipSpace(text + after) == text + after
    requires ReadValue(text + after) == Some(Read(value, after)) && after != "" && !Space(after[0])
    ensures
      var t := Quote(key) + style.colon + text + after;
      && t != "" && t[0] == '"' && ReadString(t[1..]) == Some(Read(key, style.colon + (text + after)))
      && (style.colon + (text + after))[0] == ':' && !Space((style.colon + (text + after))[0])
      && ReadValue(SkipSpace((style.colon + (text + after))[1..])) == Some(Read(value, after))
      && SkipSpace(after) == after
  {
    Regroup4(Quote(key), style.colon, text, after);
    QuoteRoundTrip(key, style.colon + (text + after));
    SkipSeparator(style.colon, text + after);
  }

  /** An object's fields are the first field, the separator and the rest of the fields. */
  lemma FieldsText(fields: seq<Field>, style: Style, rest: string)
    requires fields != []
    ensures
      var first := Quote(fields[0].key) + style.colon + Dumps(fields[0].value, style);
      if |fields| == 1 then DumpFields(fields, style) + "}" + rest == first + ("}" + rest)
      else DumpFields(fields, style) + "}" + rest
           == first + (style.item + (DumpFields(fields[1..], style) + "}" + rest))
  {
    var first := Quote(fields[0].key) + style.colon + Dumps(fields[0].value, style);
    if |fields| == 1 {
      Regroup(first, "}", rest);
    } else {
      Regroup5(first, style.item, DumpFields(fields[1..], style), "}", rest);
    }
  }

  lemma Regroup4(a: string, b: string, c: string, d: string)
    ensures a + b + c + d == a + (b + (c + d))
  {
  }

  lemma {:induction false} FieldsRoundTrip(fields: seq<Field>, style: Style, rest: string)
    requires StyleOk(style) && fields != []
    ensures ReadFields(DumpFields(fields, style) + "}" + rest) == Some(Read(fields, rest))
    decreases fields, 2
  {
    if |fields| == 1 { OneFieldRoundTrip(fields, style, rest); } else { MoreFieldsRoundTrip(fields, style, rest); }
  }

  lemma {:induction false} OneFieldRoundTrip(fields: seq<Field>, style: Style, rest: string)
    requires StyleOk(style) && |fields| == 1
    ensures ReadFields(DumpFields(fields, style) + "}" + rest) == Some(Read(fields, rest))
    decreases fields, 1
  {
    FieldsText(fields, style, rest);
    var key, value, text := fields[0].key, fields[0].value, Dumps(fields[0].value, style);
    DumpsStart(value, style, "}" + rest);
    ValueRoundTrip(value, style, "}" + rest);
    LastField(key, value, text, style, rest);
    assert fields == [Field(key, value)];
  }

  lemma {:induction false} MoreFieldsRoundTrip(fields: seq<Field>, style: Style, rest: string)
    requires StyleOk(style) && |fields| > 1
    ensures ReadFields(DumpFields(fields, style) + "}" + rest) == Some(Read(fields, rest))
    decreases fields, 1
  {
    FieldsText(fields, style, rest);
    var first, tail := fields[0], DumpFields(fields[1..], style) + "}" + rest;
    FieldsStart(fields[1..], style);
    assert tail[0] == '"';
    FirstValue(first, style, tail);
    FieldsRoundTrip(fields[1..], style, rest);
    NextField(first.key, first.value, Dumps(first.value, style), style, tail, fields[1..], rest);
    assert fields == [first] + fields[1..];
  }

  /** The value of a field that another follows reads back. */
  lemma {:induction false} FirstValue(first: Field, style: Style, tail: string)
    requires StyleOk(style)
    ensures
      var text, after := Dumps(first.value, style), style.item + tail;
      SkipSpace(text + after) == text + after && ReadValue(text + after) == Some(Read(first.value, after))
    decreases first
  {
    var after := style.item + tail;
    assert NoDigit(after) by { SkipSeparator(style.item, tail); }
    DumpsStart(first.value, style, after);
    ValueRoundTrip(first.value, style, after);
  }

  lemma LastField(key: string, value: Json, text: string, style: Style, rest: string)
    requires StyleOk(style) && SkipSpace(text + ("}" + rest)) == text + ("}" + rest)
    requires ReadValue(text + ("}" + rest)) == Some(Read(value, "}" + rest))
    ensures ReadFields(Quote(key) + style.colon + text + ("}" + rest)) == Some(Read([Field(key, value)], rest))
  {
    FieldRoundTrip(key, value, text, style, "}" + rest);
    assert ("}" + rest)[1..] == rest;
  }

  lemma NextField(key: string, value: Json, text: string, style: Style, tail: string, fields: seq<Field>, rest: string)
    requires StyleOk(style) && SkipSpace(text + (style.item + tail)) == text + (style.item + tail)
    requires ReadValue(text + (style.item + tail)) == Some(Read(value, style.item + tail))
    requires tail != "" && !Space(tail[0]) && ReadFields(tail) == Some(Read(fields, rest))
    ensures ReadFields(Quote(key) + style.colon + text + (style.item + tail))
              == Some(Read([Field(key, value)] + fields, rest))
  {
    var after := style.item + tail;
    SkipSeparator(style.item, tail);
    FieldRoundTrip(key, value, text, style, after);
    assert after[0] == ',' && SkipSpace(after[1..]) == tail;
    NextRead(Quote(key) + style.colon + text + after, key, value, style.colon + (text + after), after, tail,
             fields, rest);
  }

  lemma NextRead(t: string, key: string, value: Json, u: string, after: string, tail: string, fields: seq<Field>,
                 rest: string)
    requires t != "" && t[0] == '"' && u != "" && u[0] == ':'
    requires after != "" && after[0] == ',' && SkipSpace(after[1..]) == tail
    ensures ReadString(t[1..]) == Some(Read(key, u)) && ReadValue(SkipSpace(u[1..])) == Some(Read(value, after))
            && ReadFields(tail) == Some(Read(fields, rest))
            ==> ReadFields(t) == Some(Read([Field(key, value)] + fields, rest))
  {
    assert SkipSpace(u) == u && SkipSpace(after) == after;
  }

  /** json.loads undoes json.dumps, in either style. */
  lemma LoadsDumps(v: Json, style: Style)
    requires StyleOk(style)
    ensures Loads(Dumps(v, style)) == Some(v)
  {
    DumpsStart(v, style, "");
    ValueRoundTrip(v, style, "");
    assert Dumps(v, style) + "" == Dumps(v, style);
  }

  // ----- what written text consists of -----

  /** Written text is one line of characters from space to tilde. */
  lemma {:induction false} DumpsPrintable(v: Json, style: Style)
    requires forall c :: c in style.item + style.colon ==> Printable(c)
    ensures forall c :: c in Dumps(v, style) ==> Printable(c)
    decreases v, 1
  {
    match v
    case Str(s) => EscapePrintable(s);
    case Arr(items) => ItemsPrintable(items, style);
    case Obj(fields) => FieldsPrintable(fields, style);
    case _ =>
  }

  lemma {:induction false} ItemsPrintable(items: seq<Json>, style: Style)
    requires forall c :: c in style.item + style.colon ==> Printable(c)
    ensures forall c :: c in DumpItems(items, style) ==> Printable(c)
    decreases items, 0
  {
    if items != [] {
      DumpsPrintable(items[0], style);
      ItemsPrintable(items[1..], style);
    }
  }

  lemma {:induction false} FieldsPrintable(fields: seq<Field>, style: Style)
    requires forall c :: c in style.item + style.colon ==> Printable(c)
    ensures forall c :: c in DumpFields(fields, style) ==> Printable(c)
    decreases fields, 0
  {
    if fields != [] {
      EscapePrintable(fields[0].key);
      DumpsPrintable(fields[0].value, style);
      FieldsPrintable(fields[1..], style);
    }
  }

  // ----- the written form -----

  /** The code unit that \\uXXXX stands for. */
  function UnitValue(r: string): int
    requires |r| == 6
  {
    match (HexValue(r[2]), HexValue(r[3]), HexValue(r[4]), HexValue(r[5]))
    case (Some(a), Some(b), Some(c), Some(d)) => a * 4096 + b * 256 + c * 16 + d
    case _ => -1
  }

  /**
   * Section 7 of RFC 8259, all in ASCII: seven characters have a short escape, other printable
   * ones stand for themselves, and the rest is one code unit or a surrogate pair.
   */
  lemma EscapeForm(c: char)
    ensures
      var n, r := c as int, EscapeChar(c);
      if c == '"' || c == '\\' then r == ['\\', c]
      else if n == 8 then r == ['\\', 'b']
      else if n == 9 then r == ['\\', 't']
      else if n == 10 then r == ['\\', 'n']
      else if n == 12 then r == ['\\', 'f']
      else if n == 13 then r == ['\\', 'r']
      else if 32 <= n <= 126 then r == [c]
      else if n <= 0xFFFF then |r| == 6 && r[..2] == ['\\', 'u'] && UnitValue(r) == n
      else
        && |r| == 12 && r[..2] == ['\\', 'u'] && r[6..8] == ['\\', 'u']
        && 0xD800 <= UnitValue(r[..6]) < 0xDC00 && 0xDC00 <= UnitValue(r[6..]) < 0xE000
        && n == 0x10000 + (UnitValue(r[..6]) - 0xD800) * 1024 + (UnitValue(r[6..]) - 0xDC00)
  {
    if (c as int) > 0xFFFF { PairForm(c); } else if !Printable(c) && Short(c).None? { UnitForm(c as int); }
  }

  lemma UnitForm(n: int)
    requires 0 <= n < 0x10000
    ensures Unit(n)[..2] == ['\\', 'u'] && UnitValue(Unit(n)) == n
  {
    HexDigits(n);
  }

  lemma PairForm(c: char)
    requires c as int > 0xFFFF
    ensures
      var n, r := c as int, EscapeChar(c);
      && |r| == 12 && r[..2] == ['\\', 'u'] && r[6..8] == ['\\', 'u']
      && 0xD800 <= UnitValue(r[..6]) < 0xDC00 && 0xDC00 <= UnitValue(r[6..]) < 0xE000
      && n == 0x10000 + (UnitValue(r[..6]) - 0xD800) * 1024 + (UnitValue(r[6..]) - 0xDC00)
  {
    var high, low := 0xD800 + (c as int - 0x10000) / 1024, 0xDC00 + (c as int - 0x10000) % 1024;
    PairOf(EscapeChar(c), high, low);
  }

  lemma PairOf(r: string, high: int, low: int)
    requires 0 <= high < 0x10000 && 0 <= low < 0x10000 && r == Unit(high) + Unit(low)
    ensures |r| == 12 && r[..2] == ['\\', 'u'] && r[6..8] == ['\\', 'u']
    ensures UnitValue(r[..6]) == high && UnitValue(r[6..]) == low
  {
    UnitForm(high);
    UnitForm(low);
    assert r[..6] == Unit(high) && r[6..] == Unit(low);
    assert r[..2] == Unit(high)[..2] && r[6..8] == Unit(low)[..2];
  }

  lemma OneItem(v: Json, style: Style)
    ensures DumpItems([v], style) == Dumps(v, style)
  {
  }

  lemma OneField(f: Field, style: Style)
    ensures DumpFields([f], style) == Quote(f.key) + style.colon + Dumps(f.value, style)
  {
  }

  /** A list's brackets and separators. */
  lemma ListForm(v: Json, w: Json, style: Style)
    ensures Dumps(Arr([]), style) == "[]"
    ensures Dumps(Arr([v, w]), style) == "[" + (Dumps(v, style) + style.item + Dumps(w, style)) + "]"
  {
    var items := [v, w];
    assert items[1..] == [w];
    OneItem(w, style);
    assert DumpItems(items, style) == Dumps(v, style) + style.item + DumpItems(items[1..], style);
    assert Dumps(Arr([]), style) == "[" + DumpItems([], style) + "]";
  }

  /** An object's braces, quotes and separators. */
  lemma ObjectForm(f: Field, g: Field, style: Style)
    ensures Dumps(Obj([f, g]), style)
            == "{" + ("\"" + Escape(f.key) + "\"" + style.colon + Dumps(f.value, style) + style.item
                      + ("\"" + Escape(g.key) + "\"" + style.colon + Dumps(g.value, style))) + "}"
  {
    var fields := [f, g];
    assert fields[1..] == [g];
    OneField(g, style);
    assert DumpFields(fields, style)
        == Quote(f.key) + style.colon + Dumps(f.value, style) + style.item + DumpFields(fields[1..], style);
  }

  /** Words, numbers and strings. */
  lemma ScalarForm(n: nat, text: string, style: Style)
    ensures Dumps(Null, style) == "null" && Dumps(Bool(true), style) == "true" && Dumps(Bool(false), style) == "false"
    ensures Dumps(Str(text), style) == "\"" + Escape(text) + "\""
    ensures Dumps(Num(n), style) == Decimal(n)
    ensures n < 10 ==> Decimal(n) == [('0' as int + n) as char]
    ensures n >= 10 ==> Decimal(n) == Decimal(n / 10) + Decimal(n % 10)
  {
  }

  // ----- the fields of an object -----

  function Get(fields: seq<Field>, key: string): Option<Json> {
    if fields == [] then None
    else if fields[0].key == key then Some(fields[0].value) else Get(fields[1..], key)
  }

  /** A key found behind fields with other keys. */
  lemma {:induction false} GetAt(fields: seq<Field>, i: nat)
    requires i < |fields| && forall j :: 0 <= j < i ==> fields[j].key != fields[i].key
    ensures Get(fields, fields[i].key) == Some(fields[i].value)
  {
    if i > 0 { GetAt(fields[1..], i - 1); }
  }
}

/** JSON values as the audit chain prints them: ASCII only, no spaces; and a parser
    that reads every printed value back. */
module Json {
  import opened Prelude

  // Values within RFC 8259 sections 3 to 7: no floating-point numbers, and strings
  // of Unicode scalar values.
  datatype Json =
    | JNull
    | JBool(b: bool)
    | JInt(n: int)
    | JStr(s: string)
    | JArr(items: Items)
    | JObj(members: Members)

  datatype Items = NoItems | Item(head: Json, tail: Items)

  // Members in insertion order.
  datatype Members = NoMembers | Member(key: string, value: Json, rest: Members)

  // -- numbers ---------------------------------------------------------------

  function Digit(d: int): char
    requires 0 <= d < 10
  {
    '0' + d as char
  }

  predicate IsDigit(c: char) {
    '0' <= c <= '9'
  }

  function Decimal(n: nat): string {
    if n < 10 then [Digit(n)] else Decimal(n / 10) + [Digit(n % 10)]
  }

  function Number(n: int): string {
    if n < 0 then "-" + Decimal(-n) else Decimal(n)
  }

  /** Read as many digits as there are, on top of what has been read. */
  function ReadDigits(s: string, acc: nat): (nat, string) {
    if s == "" || !IsDigit(s[0]) then (acc, s) else ReadDigits(s[1..], acc * 10 + (s[0] - '0') as int)
  }

  predicate DigitFree(rest: string) {
    rest == "" || !IsDigit(rest[0])
  }

  lemma {:induction false} DecimalRead(n: nat, rest: string)
    ensures Decimal(n) != "" && IsDigit(Decimal(n)[0])
    ensures ReadDigits(Decimal(n) + rest, 0) == ReadDigits(rest, n)
    decreases n
  {
    if n < 10 {
      assert (Decimal(n) + rest)[1..] == rest;
    } else {
      var last := [Digit(n % 10)];
      DecimalRead(n / 10, last + rest);
      assert Decimal(n) + rest == Decimal(n / 10) + (last + rest);
      assert (last + rest)[1..] == rest;
    }
  }

  // -- strings ---------------------------------------------------------------

  function HexDigit(d: int): char
    requires 0 <= d < 16
  {
    if d < 10 then '0' + d as char else 'a' + (d - 10) as char
  }

  function Hex4(n: int): (r: string)
    requires 0 <= n < 0x1_0000
    ensures |r| == 4 && Printable(r)
  {
    [HexDigit(n / 16 / 16 / 16), HexDigit(n / 16 / 16 % 16), HexDigit(n / 16 % 16), HexDigit(n % 16)]
  }

  /** One character of a string: itself if it is printable ASCII, an escape if not. */
  function EscapeChar(c: char): string {
    if c == '"' then "\\\""
    else if c == '\\' then "\\\\"
    else if c == '\n' then "\\n"
    else if c == '\r' then "\\r"
    else if c == '\t' then "\\t"
    else if c == '\U{0c}' then "\\f"
    else if c == '\U{08}' then "\\b"
    else if ' ' <= c <= '~' then [c]
    else
      var n := c as int;
      if n < 0x1_0000 then "\\u" + Hex4(n)
      else "\\u" + Hex4(0xd800 + (n - 0x1_0000) / 0x400) + "\\u" + Hex4(0xdc00 + (n - 0x1_0000) % 0x400)
  }

  function Escape(s: string): string {
    if s == "" then "" else EscapeChar(s[0]) + Escape(s[1..])
  }

  /** Printable ASCII stands for itself but for the quote and the backslash; seven characters
      have a short escape. */
  lemma EscapesAre(c: char)
    ensures ' ' <= c <= '~' && c != '"' && c != '\\' ==> EscapeChar(c) == [c]
    ensures !(' ' <= c <= '~') || c == '"' || c == '\\' ==> |EscapeChar(c)| >= 2 && EscapeChar(c)[0] == '\\'
    ensures EscapeChar('"') == ['\\', '"'] && EscapeChar('\\') == ['\\', '\\']
    ensures EscapeChar(10 as char) == ['\\', 'n'] && EscapeChar(13 as char) == ['\\', 'r']
    ensures EscapeChar(9 as char) == ['\\', 't'] && EscapeChar(12 as char) == ['\\', 'f']
    ensures EscapeChar(8 as char) == ['\\', 'b']
  {
  }

  function HexValue(c: char): Option<int> {
    if IsDigit(c) then Some((c - '0') as int)
    else if 'a' <= c <= 'f' then Some((c - 'a') as int + 10)
    else None
  }

  /** Four hexadecimal digits. */
  function ReadHex4(s: string): (r: Option<int>)
    ensures r.Some? ==> |s| >= 4 && 0 <= r.value < 0x1_0000
  {
    if |s| < 4 then None
    else
      var a, b, c, d := HexValue(s[0]), HexValue(s[1]), HexValue(s[2]), HexValue(s[3]);
      if a.None? || b.None? || c.None? || d.None? then None
      else Some(((a.value * 16 + b.value) * 16 + c.value) * 16 + d.value)
  }

  lemma Hex4Read(n: int, rest: string)
    requires 0 <= n < 0x1_0000
    ensures ReadHex4(Hex4(n) + rest) == Some(n)
  {
    hide HexDigit, HexValue;
    var a := n / 16;
    var b := a / 16;
    var s := Hex4(n) + rest;
    assert s[0] == HexDigit(b / 16) && s[1] == HexDigit(b % 16) && s[2] == HexDigit(a % 16) && s[3] == HexDigit(n % 16);
    HexDigitRead(b / 16);
    HexDigitRead(b % 16);
    HexDigitRead(a % 16);
    HexDigitRead(n % 16);
  }

  lemma HexDigitRead(d: int)
    requires 0 <= d < 16
    ensures HexValue(HexDigit(d)) == Some(d)
  {
  }

  /** A \u escape, after its "u": one code unit, or a surrogate pair. */
  function ReadUnicode(s: string): (r: Option<(char, string)>)
    ensures r.Some? ==> |r.value.1| < |s|
  {
    match ReadHex4(s)
    case None => None
    case Some(u) =>
      if 0xd800 <= u < 0xdc00 then
        if |s| >= 6 && s[4] == '\\' && s[5] == 'u' && ReadHex4(s[6..]).Some? then
          var low := ReadHex4(s[6..]).value;
          if 0xdc00 <= low < 0xe000 then Some((((u - 0xd800) * 0x400 + (low - 0xdc00) + 0x1_0000) as char, s[10..]))
          else None
        else None
      else if 0xdc00 <= u < 0xe000 then None
      else Some((u as char, s[4..]))
  }

  /** An escape, after its backslash. */
  function ReadEscape(s: string): (r: Option<(char, string)>)
    ensures r.Some? ==> |r.value.1| < |s|
  {
    if s == "" then None
    else match s[0]
      case '"' => Some(('"', s[1..]))
      case '\\' => Some(('\\', s[1..]))
      case '/' => Some(('/', s[1..]))
      case 'n' => Some(('\n', s[1..]))
      case 'r' => Some(('\r', s[1..]))
      case 't' => Some(('\t', s[1..]))
      case 'f' => Some(('\U{0c}', s[1..]))
      case 'b' => Some(('\U{08}', s[1..]))
      case 'u' => ReadUnicode(s[1..])
      case _ => None
  }

  /** A string, after its opening quote. */
  function ReadChars(s: string): (r: Option<(string, string)>)
    ensures r.Some? ==> |r.value.1| < |s|
    decreases |s|
  {
    if s == "" then None
    else if s[0] == '"' then Some(("", s[1..]))
    else if s[0] == '\\' then
      match ReadEscape(s[1..])
      case None => None
      case Some((c, rest)) =>
        match ReadChars(rest)
        case None => None
        case Some((cs, rest')) => Some(([c] + cs, rest'))
    else
      match ReadChars(s[1..])
      case None => None
      case Some((cs, rest')) => Some(([s[0]] + cs, rest'))
  }

  lemma UnicodeRead(c: char, rest: string)
    requires !(' ' <= c <= '~')
    ensures var n := c as int;
            n < 0x1_0000 ==> ReadUnicode(Hex4(n) + rest) == Some((c, rest))
  {
    var n := c as int;
    if n < 0x1_0000 {
      Hex4Read(n, rest);
      assert (Hex4(n) + rest)[4..] == rest;
    }
  }

  lemma SurrogatesRead(c: char, rest: string)
    requires 0x1_0000 <= c as int
    ensures var n := c as int - 0x1_0000;
            ReadUnicode(Hex4(0xd800 + n / 0x400) + ("\\u" + (Hex4(0xdc00 + n % 0x400) + rest))) == Some((c, rest))
  {
    hide Hex4, ReadHex4;
    var n := c as int - 0x1_0000;
    PairRead(0xd800 + n / 0x400, 0xdc00 + n % 0x400, rest);
    assert n / 0x400 * 0x400 + n % 0x400 == n;
  }

  lemma PairRead(high: int, low: int, rest: string)
    requires 0xd800 <= high < 0xdc00 && 0xdc00 <= low < 0xe000
    ensures ReadUnicode(Hex4(high) + ("\\u" + (Hex4(low) + rest)))
         == Some((((high - 0xd800) * 0x400 + (low - 0xdc00) + 0x1_0000) as char, rest))
  {
    hide Hex4, ReadHex4;
    var tail := "\\u" + (Hex4(low) + rest);
    var s := Hex4(high) + tail;
    Hex4Read(high, tail);
    Hex4Read(low, rest);
    assert s[4] == '\\' && s[5] == 'u';
    assert s[6..] == Hex4(low) + rest;
    assert s[10..] == rest;
  }

  /** Every escape reads back as the character it stands for. */
  lemma EscapeRead(c: char, rest: string)
    requires |EscapeChar(c)| > 1
    ensures EscapeChar(c)[0] == '\\'
    ensures ReadEscape(EscapeChar(c)[1..] + rest) == Some((c, rest))
  {
    hide Hex4, ReadHex4, ReadUnicode;
    var s := EscapeChar(c)[1..] + rest;
    if c in {'"', '\\', '\n', '\r', '\t', '\U{0c}', '\U{08}'} {
      assert s[1..] == rest;
    } else {
      assert s[0] == 'u';
      if c as int < 0x1_0000 {
        UnicodeRead(c, rest);
        assert s[1..] == Hex4(c as int) + rest;
      } else {
        SurrogatesRead(c, rest);
        SurrogatesText(c, rest);
      }
    }
  }

  lemma SurrogatesText(c: char, rest: string)
    requires 0x1_0000 <= c as int
    ensures var n := c as int - 0x1_0000;
            (EscapeChar(c)[1..] + rest)[1..] == Hex4(0xd800 + n / 0x400) + ("\\u" + (Hex4(0xdc00 + n % 0x400) + rest))
  {
    hide Hex4;
  }

  lemma EscapeShape(c: char)
    ensures |EscapeChar(c)| >= 1
    ensures |EscapeChar(c)| == 1 ==> EscapeChar(c) == [c] && c != '"' && c != '\\'
  {
  }

  lemma {:induction false} CharsRead(s: string, rest: string)
    ensures ReadChars(Escape(s) + ("\"" + rest)) == Some((s, rest))
    decreases |s|
  {
    hide EscapeChar, ReadEscape;
    var end := "\"" + rest;
    if s == "" {
      assert Escape(s) + end == end && end[1..] == rest;
    } else {
      CharsRead(s[1..], rest);
      var more := Escape(s[1..]) + end;
      var e := EscapeChar(s[0]);
      assert Escape(s) + end == e + more;
      assert s == [s[0]] + s[1..];
      EscapeShape(s[0]);
      if |e| > 1 {
        EscapeRead(s[0], more);
        assert (e + more)[1..] == e[1..] + more;
      } else {
        assert (e + more)[1..] == more;
      }
    }
  }

  // -- values ----------------------------------------------------------------

  function Render(v: Json): string
    decreases v, 0
  {
    match v
    case JNull => "null"
    case JBool(b) => if b then "true" else "false"
    case JInt(n) => Number(n)
    case JStr(s) => "\"" + Escape(s) + "\""
    case JArr(items) => if items.NoItems? then "[]" else "[" + RenderItems(items)
    case JObj(members) => if members.NoMembers? then "{}" else "{" + RenderMembers(members)
  }

  /** The items and the closing bracket. */
  function RenderItems(items: Items): string
    requires items.Item?
    decreases items, 0
  {
    Render(items.head) + (if items.tail.NoItems? then "]" else "," + RenderItems(items.tail))
  }

  function RenderMembers(ms: Members): string
    requires ms.Member?
    decreases ms, 0
  {
    "\"" + Escape(ms.key) + "\":" + Render(ms.value) + RenderMore(ms.rest)
  }

  function RenderMore(ms: Members): string
    decreases ms, 1
  {
    if ms.NoMembers? then "}" else "," + RenderMembers(ms)
  }

  function Parse(s: string): (r: Option<(Json, string)>)
    ensures r.Some? ==> |r.value.1| < |s|
    decreases |s|, 0
  {
    if "null" <= s then Some((JNull, s[4..]))
    else if "true" <= s then Some((JBool(true), s[4..]))
    else if "false" <= s then Some((JBool(false), s[5..]))
    else if s == "" then None
    else if s[0] == '"' then
      match ReadChars(s[1..])
      case None => None
      case Some((cs, rest)) => Some((JStr(cs), rest))
    else if s[0] == '[' then
      if "[]" <= s then Some((JArr(NoItems), s[2..]))
      else match ParseItems(s[1..])
        case None => None
        case Some((items, rest)) => Some((JArr(items), rest))
    else if s[0] == '{' then
      if "{}" <= s then Some((JObj(NoMembers), s[2..]))
      else match ParseMembers(s[1..])
        case None => None
        case Some((ms, rest)) => Some((JObj(ms), rest))
    else ParseNumber(s)
  }

  function ParseNumber(s: string): (r: Option<(Json, string)>)
    ensures r.Some? ==> |r.value.1| < |s|
  {
    ReadDigitsShrinks(s, 0);
    if s == "" then None
    else if s[0] == '-' then
      ReadDigitsShrinks(s[1..], 0);
      if |s| > 1 && IsDigit(s[1]) then Some((JInt(-(ReadDigits(s[1..], 0).0 as int)), ReadDigits(s[1..], 0).1)) else None
    else if IsDigit(s[0]) then Some((JInt(ReadDigits(s, 0).0), ReadDigits(s, 0).1))
    else None
  }

  lemma {:induction false} ReadDigitsShrinks(s: string, acc: nat)
    ensures |ReadDigits(s, acc).1| <= |s|
    ensures s != "" && IsDigit(s[0]) ==> |ReadDigits(s, acc).1| < |s|
    decreases |s|
  {
    if s != "" && IsDigit(s[0]) {
      ReadDigitsShrinks(s[1..], acc * 10 + (s[0] - '0') as int);
    }
  }

  function ParseItems(s: string): (r: Option<(Items, string)>)
    ensures r.Some? ==> |r.value.1| < |s|
    decreases |s|, 1
  {
    match Parse(s)
    case None => None
    case Some((v, rest)) =>
      if rest == "" then None
      else if rest[0] == ']' then Some((Item(v, NoItems), rest[1..]))
      else if rest[0] == ',' then
        match ParseItems(rest[1..])
        case None => None
        case Some((items, rest')) => Some((Item(v, items), rest'))
      else None
  }

  function ParseMembers(s: string): (r: Option<(Members, string)>)
    ensures r.Some? ==> |r.value.1| < |s|
    decreases |s|, 1
  {
    if s == "" || s[0] != '"' then None
    else
      match ReadChars(s[1..])
      case None => None
      case Some((key, afterKey)) =>
        if afterKey == "" || afterKey[0] != ':' then None
        else
          match Parse(afterKey[1..])
          case None => None
          case Some((v, rest)) =>
            if rest == "" then None
            else if rest[0] == '}' then Some((Member(key, v, NoMembers), rest[1..]))
            else if rest[0] == ',' then
              match ParseMembers(rest[1..])
              case None => None
              case Some((ms, rest')) => Some((Member(key, v, ms), rest'))
            else None
  }

  // -- the round trip --------------------------------------------------------

  lemma NumberRead(n: int, rest: string)
    requires DigitFree(rest)
    ensures Parse(Number(n) + rest) == Some((JInt(n), rest))
  {
    var s := Number(n) + rest;
    if n < 0 {
      DecimalRead(-n, rest);
      assert s[1..] == Decimal(-n) + rest;
      assert s[0] == '-';
    } else {
      DecimalRead(n, rest);
      assert s[0] == Decimal(n)[0];
    }
    assert s[0] == '-' || IsDigit(s[0]);
    assert Parse(s) == ParseNumber(s);
  }

  lemma StringRead(t: string, rest: string)
    ensures Parse(Render(JStr(t)) + rest) == Some((JStr(t), rest))
  {
    hide Escape, ReadChars;
    var s := Render(JStr(t)) + rest;
    CharsRead(t, rest);
    assert s[0] == '"';
    assert s[1..] == Escape(t) + ("\"" + rest);
    ParseString(s);
  }

  lemma ParseString(s: string)
    requires s != "" && s[0] == '"'
    ensures Parse(s) == match ReadChars(s[1..])
                        case None => None
                        case Some((cs, rest)) => Some((JStr(cs), rest))
  {
    hide ReadChars;
  }

  /** The first character of a printed value says what kind of value it is. */
  lemma FirstChar(v: Json)
    ensures Render(v) != ""
    ensures Render(v)[0] !in {']', '}', ',', ':'}
  {
    if v.JInt? {
      DecimalRead(if v.n < 0 then -v.n else v.n, "");
    }
  }

  lemma FirstItemChar(items: Items)
    requires items.Item?
    ensures RenderItems(items) != "" && RenderItems(items)[0] != ']'
  {
    FirstChar(items.head);
  }

  /** Every printed value is read back, whatever follows it. */
  lemma {:induction false} RenderRead(v: Json, rest: string)
    requires v.JInt? ==> DigitFree(rest)
    ensures Parse(Render(v) + rest) == Some((v, rest))
    decreases v, 0
  {
    var s := Render(v) + rest;
    match v
    case JNull => assert s[4..] == rest;
    case JBool(b) =>
      assert s[0] == if b then 't' else 'f';
      assert s[|Render(v)|..] == rest;
    case JInt(n) => NumberRead(n, rest);
    case JStr(t) => StringRead(t, rest);
    case JArr(items) => ArrayRead(items, rest);
    case JObj(members) => ObjectRead(members, rest);
  }

  lemma {:induction false} ArrayRead(items: Items, rest: string)
    ensures Parse(Render(JArr(items)) + rest) == Some((JArr(items), rest))
    decreases items, 2
  {
    hide RenderMembers, ParseMembers, RenderItems, ParseItems, ReadChars, ParseNumber, Escape, Number;
    var s := Render(JArr(items)) + rest;
    assert s[0] == '[';
    if items.NoItems? {
      assert s[2..] == rest;
    } else {
      assert s[1..] == RenderItems(items) + rest;
      FirstItemChar(items);
      assert s[1] == s[1..][0] == RenderItems(items)[0];
      ItemsRead(items, rest);
    }
  }

  lemma {:induction false} ItemsRead(items: Items, rest: string)
    requires items.Item?
    ensures ParseItems(RenderItems(items) + rest) == Some((items, rest))
    decreases items, 1
  {
    hide Parse, ParseItems, Render;
    if items.tail.NoItems? {
      var after := "]" + rest;
      RenderRead(items.head, after);
      assert RenderItems(items) + rest == Render(items.head) + after;
    } else {
      var after := "," + (RenderItems(items.tail) + rest);
      RenderRead(items.head, after);
      ItemsRead(items.tail, rest);
      assert RenderItems(items) + rest == Render(items.head) + after;
    }
    ParseItem(RenderItems(items) + rest, items, rest);
  }

  lemma ParseItem(s: string, items: Items, rest: string)
    requires items.Item?
    requires Parse(s) == Some((items.head, if items.tail.NoItems? then "]" + rest else "," + (RenderItems(items.tail) + rest)))
    requires items.tail.Item? ==> ParseItems(RenderItems(items.tail) + rest) == Some((items.tail, rest))
    ensures ParseItems(s) == Some((items, rest))
  {
    hide Parse, RenderItems;
    if items.tail.NoItems? {
      assert ("]" + rest)[1..] == rest;
    } else {
      assert ("," + (RenderItems(items.tail) + rest))[1..] == RenderItems(items.tail) + rest;
    }
  }

  lemma {:induction false} ObjectRead(members: Members, rest: string)
    ensures Parse(Render(JObj(members)) + rest) == Some((JObj(members), rest))
    decreases members, 2
  {
    hide RenderMembers, ParseMembers, RenderItems, ParseItems, ReadChars, ParseNumber, Escape, Number;
    var s := Render(JObj(members)) + rest;
    assert s[0] == '{';
    if members.NoMembers? {
      assert s[2..] == rest;
    } else {
      assert s[1..] == RenderMembers(members) + rest;
      MembersText(members, rest);
      assert s[1] == s[1..][0] == '"';
      MembersRead(members, rest);
    }
  }

  lemma {:induction false} MembersRead(ms: Members, rest: string)
    requires ms.Member?
    ensures ParseMembers(RenderMembers(ms) + rest) == Some((ms, rest))
    decreases ms, 1
  {
    var after := AfterValue(ms, rest);
    var value := Render(ms.value) + after;
    RenderRead(ms.value, after);
    CharsRead(ms.key, ":" + value);
    MembersText(ms, rest);
    if ms.rest.Member? {
      MembersRead(ms.rest, rest);
    }
    ParseMember(RenderMembers(ms) + rest, ms, rest);
  }

  /** What follows a member's value. */
  function AfterValue(ms: Members, rest: string): string
    requires ms.Member?
  {
    if ms.rest.NoMembers? then "}" + rest else "," + (RenderMembers(ms.rest) + rest)
  }

  lemma MembersText(ms: Members, rest: string)
    requires ms.Member?
    ensures var s := RenderMembers(ms) + rest;
            && s != "" && s[0] == '"'
            && s[1..] == Escape(ms.key) + ("\"" + (":" + (Render(ms.value) + AfterValue(ms, rest))))
  {
    hide Escape, Render;
    assert RenderMore(ms.rest) + rest == AfterValue(ms, rest);
    hide RenderMore, AfterValue;
    Regroup(Escape(ms.key), Render(ms.value), RenderMore(ms.rest), rest);
  }

  lemma Regroup(k: string, v: string, t: string, r: string)
    ensures var s := ("\"" + k + "\":" + v + t) + r;
            s != "" && s[0] == '"' && s[1..] == k + ("\"" + (":" + (v + (t + r))))
  {
    var s := ("\"" + k + "\":" + v + t) + r;
    assert s == "\"" + (k + ("\"" + (":" + (v + (t + r)))));
  }

  lemma ParseMember(s: string, ms: Members, rest: string)
    requires ms.Member? && s != "" && s[0] == '"'
    requires ReadChars(s[1..]) == Some((ms.key, ":" + (Render(ms.value) + AfterValue(ms, rest))))
    requires Parse(Render(ms.value) + AfterValue(ms, rest)) == Some((ms.value, AfterValue(ms, rest)))
    requires ms.rest.Member? ==> ParseMembers(RenderMembers(ms.rest) + rest) == Some((ms.rest, rest))
    ensures ParseMembers(s) == Some((ms, rest))
  {
    hide Parse, ReadChars, RenderMembers, Render;
    var value := Render(ms.value) + AfterValue(ms, rest);
    assert (":" + value)[1..] == value;
    var after := AfterValue(ms, rest);
    if ms.rest.NoMembers? {
      assert after[1..] == rest;
    } else {
      assert after[1..] == RenderMembers(ms.rest) + rest;
    }
  }

  /** Printing is unambiguous. */
  lemma RenderInjective(v: Json, w: Json)
    requires Render(v) == Render(w)
    ensures v == w
  {
    RenderRead(v, "");
    RenderRead(w, "");
    assert Render(v) + "" == Render(v) && Render(w) + "" == Render(w);
  }

  // -- the alphabet ----------------------------------------------------------

  /** Printable ASCII only: each character is its own byte, and none is NUL. */
  ghost predicate Printable(s: string) {
    forall i :: 0 <= i < |s| ==> ' ' <= s[i] <= '~'
  }

  lemma {:induction false} DecimalPrintable(n: nat)
    ensures Printable(Decimal(n))
    decreases n
  {
    if n >= 10 {
      DecimalPrintable(n / 10);
    }
  }

  lemma {:induction false} EscapePrintable(s: string)
    ensures Printable(Escape(s))
    decreases |s|
  {
    if s != "" {
      hide EscapeChar;
      EscapePrintable(s[1..]);
      EscapeCharPrintable(s[0]);
    }
  }

  lemma EscapeCharPrintable(c: char)
    ensures Printable(EscapeChar(c))
  {
    hide Hex4;
  }

  lemma {:induction false} RenderPrintable(v: Json)
    ensures Printable(Render(v))
    decreases v, 0
  {
    match v
    case JNull =>
    case JBool(b) =>
    case JInt(n) => DecimalPrintable(if n < 0 then -n else n);
    case JStr(s) => EscapePrintable(s);
    case JArr(items) => if items.Item? { ItemsPrintable(items); }
    case JObj(members) => if members.Member? { MembersPrintable(members); }
  }

  lemma {:induction false} ItemsPrintable(items: Items)
    requires items.Item?
    ensures Printable(RenderItems(items))
    decreases items, 1
  {
    RenderPrintable(items.head);
    if items.tail.Item? {
      ItemsPrintable(items.tail);
    }
  }

  lemma {:induction false} MembersPrintable(ms: Members)
    requires ms.Member?
    ensures Printable(RenderMembers(ms))
    decreases ms, 1
  {
    EscapePrintable(ms.key);
    RenderPrintable(ms.value);
    if ms.rest.Member? {
      MembersPrintable(ms.rest);
    }
  }
}

/** The JSON text of a list of room names.

    The session store persists its room list with `JSON.stringify` and reads it
    back with `JSON.parse` (client/src/store.jsx:9, :35, :41); the chat server
    answers `GET /rooms` with the serde_json text of its room list, which
    `response.json()` parses (chat-service/src/main.rs:252-254,
    client/src/api/chat.js:87).  For a list of strings both encoders write the
    same text: the same short escapes for backspace, form feed, newline,
    carriage return and tab, `\u00xx` with lower-case hex for the other control
    characters, a backslash before `"` and `\`, everything else as it is. */
module RoomsJson {
  import opened Common

  const HexDigits: string := "0123456789abcdef"

  /** How one character of a string is written inside the quotes. */
  function EscapeChar(c: char): string
  {
    if c == '"' then "\\\""
    else if c == '\\' then "\\\\"
    else if c == '\U{8}' then "\\b"
    else if c == '\U{C}' then "\\f"
    else if c == '\n' then "\\n"
    else if c == '\r' then "\\r"
    else if c == '\t' then "\\t"
    else if c < ' ' then ['\\', 'u', '0', '0', HexDigits[c as int / 16], HexDigits[c as int % 16]]
    else [c]
  }

  function Escape(s: string): string
  {
    if s == [] then [] else EscapeChar(s[0]) + Escape(s[1..])
  }

  /** A string literal. */
  function Quote(s: string): string
  {
    "\"" + Escape(s) + "\""
  }

  /** The literals of a list, separated by commas. */
  function Elements(rooms: seq<string>): string
  {
    if rooms == [] then []
    else if |rooms| == 1 then Quote(rooms[0])
    else Quote(rooms[0]) + "," + Elements(rooms[1..])
  }

  /** `JSON.stringify(rooms)`: the array text, without any blank. */
  function Stringify(rooms: seq<string>): (text: string)
    ensures |text| >= 2 && text[0] == '[' && text[|text| - 1] == ']'
    ensures text == "[]" <==> rooms == []
  {
    "[" + Elements(rooms) + "]"
  }

  // ---------------------------------------------------------------------------
  // Reading an array of strings back, as JSON.parse does for such a text.

  predicate IsBlank(c: char)
  {
    c == ' ' || c == '\t' || c == '\n' || c == '\r'
  }

  /** Drops the blanks JSON allows between tokens. */
  function SkipBlanks(s: string): (r: string)
    ensures |r| <= |s| && r == s[|s| - |r|..]
    ensures r == [] || !IsBlank(r[0])
  {
    if s != [] && IsBlank(s[0]) then SkipBlanks(s[1..]) else s
  }

  function HexValue(c: char): Option<nat>
  {
    if '0' <= c <= '9' then Some(c as int - '0' as int)
    else if 'a' <= c <= 'f' then Some(c as int - 'a' as int + 10)
    else if 'A' <= c <= 'F' then Some(c as int - 'A' as int + 10)
    else None
  }

  /** The number written by four hex digits. */
  function Hex4(t: string): (r: Option<nat>)
    requires |t| == 4
    ensures r.Some? ==> r.value < 0x1_0000
  {
    match (HexValue(t[0]), HexValue(t[1]), HexValue(t[2]), HexValue(t[3]))
    case (Some(a), Some(b), Some(c), Some(d)) =>
      if a < 16 && b < 16 && c < 16 && d < 16 then Some(((a * 16 + b) * 16 + c) * 16 + d) else None
    case _ => None
  }

  /** The character a UTF-16 surrogate pair stands for. */
  function FromSurrogates(high: nat, low: nat): (c: char)
    requires 0xD800 <= high <= 0xDBFF && 0xDC00 <= low <= 0xDFFF
    ensures 0x1_0000 <= c as int
  {
    ((high - 0xD800) * 0x400 + (low - 0xDC00) + 0x1_0000) as char
  }

  /** The character an escape stands for, given the text after its backslash,
      and how many characters of that text the escape uses.  A `\u` escape
      naming the high half of a surrogate pair stands, together with the `\u`
      escape of a low half right after it, for the one character the pair
      encodes; a lone half has no character of its own here. */
  function Unescape(t: string): (r: Option<(char, nat)>)
    ensures r.Some? ==> 1 <= r.value.1 <= |t|
  {
    if t == [] then None
    else if t[0] == '"' then Some(('"', 1))
    else if t[0] == '\\' then Some(('\\', 1))
    else if t[0] == '/' then Some(('/', 1))
    else if t[0] == 'b' then Some(('\U{8}', 1))
    else if t[0] == 'f' then Some(('\U{C}', 1))
    else if t[0] == 'n' then Some(('\n', 1))
    else if t[0] == 'r' then Some(('\r', 1))
    else if t[0] == 't' then Some(('\t', 1))
    else if t[0] == 'u' then
      match UnicodeEscape(t[1..])
      case None => None
      case Some((c, n)) => Some((c, n + 1))
    else None
  }

  /** A `\u` escape, given the text after its `u`. */
  function UnicodeEscape(h: string): (r: Option<(char, nat)>)
    ensures r.Some? ==> 4 <= r.value.1 <= |h|
  {
    if |h| < 4 then None
    else
      match Hex4(h[..4])
      case None => None
      case Some(v) =>
        if v < 0xD800 || 0xDFFF < v then Some((v as char, 4))
        else if v <= 0xDBFF && |h| >= 10 && h[4] == '\\' && h[5] == 'u' then
          match Hex4(h[6..10])
          case Some(w) => if 0xDC00 <= w <= 0xDFFF then Some((FromSurrogates(v, w), 10)) else None
          case None => None
        else None
  }

  /** What a reader made of a prefix of its input, and the text after it. */
  datatype Parsed<+T> = Parsed(value: T, rest: string) | Unparsable

  /** The characters of a string literal, read from just after its opening
      quote up to its closing one. */
  function StringBody(t: string): (r: Parsed<string>)
    ensures r.Parsed? ==> |r.rest| < |t|
    decreases |t|
  {
    if t == [] then Unparsable
    else if t[0] == '"' then Parsed([], t[1..])
    else if t[0] == '\\' then
      match Unescape(t[1..])
      case None => Unparsable
      case Some((c, n)) => Prepend(c, StringBody(t[1 + n..]))
    else if t[0] < ' ' then Unparsable
    else Prepend(t[0], StringBody(t[1..]))
  }

  function Prepend<T>(x: T, r: Parsed<seq<T>>): (r': Parsed<seq<T>>)
    ensures r'.Parsed? <==> r.Parsed?
    ensures r'.Parsed? ==> r'.value == [x] + r.value && r'.rest == r.rest
  {
    if r.Unparsable? then Unparsable else Parsed([x] + r.value, r.rest)
  }

  /** One or more string literals separated by commas and closed by `]`,
      read from the first literal on. */
  function ElementsFrom(t: string): (r: Parsed<seq<string>>)
    ensures r.Parsed? ==> |r.rest| < |t|
    decreases |t|, 1
  {
    if t == [] || t[0] != '"' then Unparsable
    else
      var literal := StringBody(t[1..]);
      if literal.Unparsable? then Unparsable
      else AfterLiteral(literal.value, SkipBlanks(literal.rest))
  }

  /** What follows the literal `x`: either `]`, or a comma and more literals. */
  function AfterLiteral(x: string, u: string): (r: Parsed<seq<string>>)
    ensures r.Parsed? ==> |r.rest| < |u|
    decreases |u|, 0
  {
    if u == [] then Unparsable
    else if u[0] == ']' then Parsed([x], u[1..])
    else if u[0] == ',' then Prepend(x, ElementsFrom(SkipBlanks(u[1..])))
    else Unparsable
  }

  /** `JSON.parse(s)` when `s` is the text of an array of strings; `None` for
      any other text. */
  function ParseRooms(s: string): (r: Option<seq<string>>)
    ensures r.Some? ==> SkipBlanks(s) != [] && SkipBlanks(s)[0] == '['
  {
    var t := SkipBlanks(s);
    if t == [] || t[0] != '[' then None
    else
      var u := SkipBlanks(t[1..]);
      Finished(if u != [] && u[0] == ']' then Parsed([], u[1..]) else ElementsFrom(u))
  }

  /** Blanks, then `[]`, read as the empty list. */
  lemma EmptyListRead(s: string)
    requires SkipBlanks(s) == "[]"
    ensures ParseRooms(s) == Some([])
  {
    var close: string := "]";
    assert SkipBlanks(s)[1..] == close;
    assert SkipBlanks(close) == close by { assert !IsBlank(close[0]); }
    assert Finished(Parsed([], close[1..])) == Some([]) by { assert close[1..] == []; }
  }

  /** The list read, provided only blanks follow it. */
  function Finished(parsed: Parsed<seq<string>>): Option<seq<string>>
  {
    if parsed.Parsed? && SkipBlanks(parsed.rest) == [] then Some(parsed.value) else None
  }

  // ---------------------------------------------------------------------------
  // Round trip: what the store (or the server) writes, the client reads back.

  lemma HexDigitValue(k: nat)
    requires k < 16
    ensures HexValue(HexDigits[k]) == Some(k)
  {
  }

  /** Four lower-case hex digits for a number below 0x10000. */
  function Hex4Text(v: nat): (t: string)
    requires v < 0x1_0000
    ensures |t| == 4
  {
    var q1 := v / 16;
    var q2 := q1 / 16;
    [HexDigits[q2 / 16], HexDigits[q2 % 16], HexDigits[q1 % 16], HexDigits[v % 16]]
  }

  lemma Hex4TextRead(v: nat)
    requires v < 0x1_0000
    ensures Hex4(Hex4Text(v)) == Some(v)
  {
    var q1 := v / 16;
    var q2 := q1 / 16;
    HexDigitsRead(q2 / 16, q2 % 16, q1 % 16, v % 16);
    SplitBySixteen(v);
  }

  lemma SplitBySixteen(v: nat)
    requires v < 0x1_0000
    ensures var q1 := v / 16; var q2 := q1 / 16;
            q2 / 16 < 16 && ((q2 / 16 * 16 + q2 % 16) * 16 + q1 % 16) * 16 + v % 16 == v
  {
  }

  lemma HexDigitsRead(a: nat, b: nat, c: nat, d: nat)
    requires a < 16 && b < 16 && c < 16 && d < 16
    ensures Hex4([HexDigits[a], HexDigits[b], HexDigits[c], HexDigits[d]]) == Some(((a * 16 + b) * 16 + c) * 16 + d)
  {
    HexDigitValue(a);
    HexDigitValue(b);
    HexDigitValue(c);
    HexDigitValue(d);
  }

  /** The UTF-16 surrogate pair of a character beyond the first 0x10000. */
  function Surrogates(c: char): (pair: (nat, nat))
    requires 0x1_0000 <= c as int
    ensures 0xD800 <= pair.0 <= 0xDBFF && 0xDC00 <= pair.1 <= 0xDFFF
    ensures FromSurrogates(pair.0, pair.1) == c
  {
    var u := c as int - 0x1_0000;
    (0xD800 + u / 0x400, 0xDC00 + u % 0x400)
  }

  /** How `JSON.stringify` could have escaped such a character: the `\u`
      escapes of its two halves, as read after the first backslash. */
  function PairEscape(c: char): string
    requires 0x1_0000 <= c as int
  {
    "u" + Hex4Text(Surrogates(c).0) + "\\u" + Hex4Text(Surrogates(c).1)
  }

  /** A surrogate pair escape is read as the one character it encodes. */
  lemma PairEscapeRead(c: char, rest: string)
    requires 0x1_0000 <= c as int
    ensures Unescape(PairEscape(c) + rest) == Some((c, 11))
  {
    var high, low := Surrogates(c).0, Surrogates(c).1;
    var first, second := Hex4Text(high), Hex4Text(low);
    var h := first + ("\\u" + second + rest);
    Hex4TextRead(high);
    Hex4TextRead(low);
    HalvesRead(first, second, rest, high, low);
    Regroup("u", first, "\\u", second, rest);
    UnicodeBranch(h);
  }

  /** After a `u`, the escape is read by `UnicodeEscape`, one character further on. */
  lemma UnicodeBranch(h: string)
    ensures UnicodeEscape(h).None? ==> Unescape("u" + h) == None
    ensures UnicodeEscape(h).Some? ==>
      Unescape("u" + h) == Some((UnicodeEscape(h).value.0, UnicodeEscape(h).value.1 + 1))
  {
    assert ("u" + h)[0] == 'u' && ("u" + h)[1..] == h;
  }

  lemma HalvesRead(first: string, second: string, rest: string, high: nat, low: nat)
    requires |first| == 4 && |second| == 4
    requires Hex4(first) == Some(high) && Hex4(second) == Some(low)
    requires 0xD800 <= high <= 0xDBFF && 0xDC00 <= low <= 0xDFFF
    ensures UnicodeEscape(first + ("\\u" + second + rest)) == Some((FromSurrogates(high, low), 10))
  {
    var h := first + ("\\u" + second + rest);
    assert h[..4] == first;
    assert h[4] == '\\' && h[5] == 'u';
    assert h[6..10] == second;
  }

  /** A low half with no high half before it is refused. */
  lemma LoneLowHalfRefused(low: nat, rest: string)
    requires 0xDC00 <= low <= 0xDFFF
    ensures Unescape("u" + Hex4Text(low) + rest) == None
  {
    var digits := Hex4Text(low);
    var h := digits + rest;
    Hex4TextRead(low);
    assert h[..4] == digits;
    assert UnicodeEscape(h) == None;
    AppendAssoc("u", digits, rest);
    UnicodeBranch(h);
  }

  /** Reading one escaped character followed by `x` gives that character
      followed by whatever reading `x` gives. */
  lemma EscapeCharRead(c: char, x: string)
    ensures StringBody(EscapeChar(c) + x) == Prepend(c, StringBody(x))
  {
    var t := EscapeChar(c) + x;
    if c == '"' || c == '\\' || c == '\U{8}' || c == '\U{C}' || c == '\n' || c == '\r' || c == '\t' {
      ShortEscapeRead(c, x);
    } else if c < ' ' {
      ControlEscapeRead(c, x);
    } else {
      assert t[1..] == x;
    }
  }

  /** A two-character escape: a backslash and one letter or sign. */
  lemma ShortEscapeRead(c: char, x: string)
    requires c == '"' || c == '\\' || c == '\U{8}' || c == '\U{C}' || c == '\n' || c == '\r' || c == '\t'
    ensures StringBody(EscapeChar(c) + x) == Prepend(c, StringBody(x))
  {
    var e := EscapeChar(c);
    assert |e| == 2 && e[0] == '\\';
    var t := e + x;
    assert t[1..] == [e[1]] + x;
    assert Unescape(t[1..]) == Some((c, 1));
    assert t[1 + 1..] == x;
  }

  /** The four hex digits of a `\u00xx` escape name the character. */
  lemma ControlHex(c: char)
    requires c < ' '
    ensures Hex4(['0', '0', HexDigits[c as int / 16], HexDigits[c as int % 16]]) == Some(c as int)
  {
    var hi, lo := c as int / 16, c as int % 16;
    HexDigitValue(0);
    HexDigitValue(hi);
    HexDigitValue(lo);
    assert c as int == hi * 16 + lo;
  }

  lemma ControlEscapeRead(c: char, x: string)
    requires c < ' ' && c != '\U{8}' && c != '\U{C}' && c != '\n' && c != '\r' && c != '\t'
    ensures StringBody(EscapeChar(c) + x) == Prepend(c, StringBody(x))
  {
    var t := EscapeChar(c) + x;
    var u := t[1..];
    var digits := ['0', '0', HexDigits[c as int / 16], HexDigits[c as int % 16]];
    assert t[0] == '\\' && u[0] == 'u' && |u| >= 5;
    assert u[1..5] == digits;
    ControlHex(c);
    assert Hex4(u[1..5]) == Some(c as int);
    assert Unescape(u) == Some((c, 5));
    assert t[1 + 5..] == x;
  }

  /** A non-empty sequence is its head followed by its tail. */
  lemma HeadTail<T>(s: seq<T>)
    requires s != []
    ensures [s[0]] + s[1..] == s
  {
  }

  lemma Singleton<T>(s: seq<T>)
    requires |s| == 1
    ensures s == [s[0]]
  {
  }

  lemma {:induction false} EscapeRead(s: string, rest: string)
    ensures StringBody(Escape(s) + "\"" + rest) == Parsed(s, rest)
  {
    if s == [] {
    } else {
      var x := Escape(s[1..]) + "\"" + rest;
      assert Escape(s) + "\"" + rest == EscapeChar(s[0]) + x;
      EscapeRead(s[1..], rest);
      EscapeCharRead(s[0], x);
      HeadTail(s);
    }
  }

  lemma ElementsStartWithQuote(rooms: seq<string>)
    requires rooms != []
    ensures |Elements(rooms)| > 0 && Elements(rooms)[0] == '"'
  {
  }

  /** Reading a literal followed by `tail` (which starts with a token). */
  lemma LiteralRead(x: string, tail: string)
    requires tail != [] && !IsBlank(tail[0])
    ensures ElementsFrom(Quote(x) + tail) == AfterLiteral(x, tail)
  {
    var t := Quote(x) + tail;
    assert t[1..] == Escape(x) + "\"" + tail;
    EscapeRead(x, tail);
  }

  lemma {:induction false} ElementsRead(rooms: seq<string>, rest: string)
    requires rooms != []
    ensures ElementsFrom(Elements(rooms) + "]" + rest) == Parsed(rooms, rest)
  {
    if |rooms| == 1 {
      LastElementRead(rooms[0], rest);
      Singleton(rooms);
    } else {
      ElementsRead(rooms[1..], rest);
      NextElementRead(rooms, rest);
    }
  }

  lemma LastElementRead(x: string, rest: string)
    ensures ElementsFrom(Elements([x]) + "]" + rest) == Parsed([x], rest)
  {
    assert Elements([x]) + "]" + rest == Quote(x) + ("]" + rest);
    LiteralRead(x, "]" + rest);
    assert ("]" + rest)[1..] == rest;
  }

  lemma Regroup(a: string, b: string, c: string, d: string, e: string)
    ensures a + b + c + d + e == a + (b + (c + d + e))
  {
  }

  /** A comma followed by the next literal: the reading goes on there. */
  lemma AfterCommaRead(x: string, next: string)
    requires next != [] && next[0] == '"'
    ensures AfterLiteral(x, "," + next) == Prepend(x, ElementsFrom(next))
  {
    assert ("," + next)[1..] == next;
    assert SkipBlanks(next) == next;
  }

  /** A literal, a comma, and a text that reads as the list `v`. */
  lemma CommaStep(x: string, next: string, v: seq<string>, rest: string)
    requires next != [] && next[0] == '"'
    requires ElementsFrom(next) == Parsed(v, rest)
    ensures ElementsFrom(Quote(x) + ("," + next)) == Parsed([x] + v, rest)
  {
    LiteralRead(x, "," + next);
    AfterCommaRead(x, next);
  }

  lemma NextElementRead(rooms: seq<string>, rest: string)
    requires |rooms| > 1
    requires ElementsFrom(Elements(rooms[1..]) + "]" + rest) == Parsed(rooms[1..], rest)
    ensures ElementsFrom(Elements(rooms) + "]" + rest) == Parsed(rooms, rest)
  {
    var next := Elements(rooms[1..]) + "]" + rest;
    assert Elements(rooms) == Quote(rooms[0]) + "," + Elements(rooms[1..]);
    Regroup(Quote(rooms[0]), ",", Elements(rooms[1..]), "]", rest);
    ElementsStartWithQuote(rooms[1..]);
    CommaStep(rooms[0], next, rooms[1..], rest);
    HeadTail(rooms);
  }

  lemma StringifyShape(rooms: seq<string>)
    ensures |Stringify(rooms)| > 0 && Stringify(rooms)[0] == '['
    ensures Stringify(rooms)[1..] == Elements(rooms) + "]" + []
  {
    assert Stringify(rooms) == "[" + (Elements(rooms) + "]" + []);
  }

  /** `JSON.parse(JSON.stringify(rooms))` gives `rooms` back. */
  lemma RoundTrip(rooms: seq<string>)
    ensures ParseRooms(Stringify(rooms)) == Some(rooms)
  {
    if rooms == [] {
      assert Stringify(rooms) == "[" + "]";
      EmptyRoundTrip(Stringify(rooms));
    } else {
      NonEmptyRoundTrip(rooms);
    }
  }

  /** The text `[]` reads as the empty list. */
  lemma EmptyRoundTrip(s: string)
    requires |s| == 2 && s[0] == '[' && s[1] == ']'
    ensures ParseRooms(s) == Some([])
  {
    var u := s[1..];
    ClosedShape(s, u);
    assert u[1..] == [];
  }

  /** A `[` closed at once reads as the empty list, with the rest after it. */
  lemma ClosedShape(s: string, u: string)
    requires |s| > 0 && s[0] == '[' && s[1..] == u
    requires u != [] && u[0] == ']'
    ensures ParseRooms(s) == Finished(Parsed([], u[1..]))
  {
    assert SkipBlanks(s) == s;
    assert SkipBlanks(u) == u;
  }

  /** After a `[` and an opening quote, reading goes on with the elements. */
  lemma BracketedShape(s: string, u: string)
    requires |s| > 0 && s[0] == '[' && s[1..] == u
    requires u != [] && u[0] == '"'
    ensures ParseRooms(s) == Finished(ElementsFrom(u))
  {
    assert SkipBlanks(s) == s;
    assert SkipBlanks(u) == u;
  }

  /** A `[` followed by list elements that read as `rooms` to the end. */
  lemma BracketedRead(s: string, u: string, rooms: seq<string>)
    requires |s| > 0 && s[0] == '[' && s[1..] == u
    requires u != [] && u[0] == '"'
    requires ElementsFrom(u) == Parsed(rooms, [])
    ensures ParseRooms(s) == Some(rooms)
  {
    BracketedShape(s, u);
  }

  lemma NonEmptyRoundTrip(rooms: seq<string>)
    requires rooms != []
    ensures ParseRooms(Stringify(rooms)) == Some(rooms)
  {
    var u := Elements(rooms) + "]" + [];
    StringifyShape(rooms);
    ElementsStartWithQuote(rooms);
    assert u[0] == Elements(rooms)[0];
    ElementsRead(rooms, []);
    BracketedRead(Stringify(rooms), u, rooms);
  }
}

/**
 * The JSON text format as the store helper uses it: `JSON.stringify` turns a
 * value into text and `JSON.parse` turns text back into a value, throwing on
 * malformed input.  Numbers are restricted to integers; everything else
 * (null, booleans, strings with all of JSON's escapes, arrays, objects,
 * insignificant whitespace) follows the JSON grammar.
 */
module JsonCodec {

  datatype Option<T> = None | Some(value: T)

  /** A JSON value. An object is the list of its members in text order. */
  datatype Json =
    | Null
    | Bool(b: bool)
    | Num(n: int)
    | Str(s: string)
    | Arr(items: seq<Json>)
    | Obj(members: seq<Member>)

  datatype Member = Member(key: string, value: Json)

  // ---------------------------------------------------------------------------
  // Objects: member lookup and the "last duplicate wins" rule of JSON.parse
  // ---------------------------------------------------------------------------

  /** The value of property `key` (`obj[key]`), or None when it is undefined. */
  function Lookup(ms: seq<Member>, key: string): (r: Option<Json>)
  {
    if ms == [] then None
    else if ms[0].key == key then Some(ms[0].value)
    else Lookup(ms[1..], key)
  }

  /** Looking up a key in a member list with `m` in front. */
  lemma LookupCons(m: Member, ms: seq<Member>, key: string)
    ensures Lookup([m] + ms, key) == if m.key == key then Some(m.value) else Lookup(ms, key)
  {
    assert ([m] + ms)[1..] == ms;
  }

  /** The members other than those named `key`, in order. */
  function Remove(ms: seq<Member>, key: string): (r: seq<Member>)
    ensures |r| <= |ms|
    ensures forall i :: 0 <= i < |r| ==> r[i] in ms && r[i].key != key
  {
    if ms == [] then []
    else if ms[0].key == key then Remove(ms[1..], key)
    else [ms[0]] + Remove(ms[1..], key)
  }

  /** No key occurs twice, as in every object a JavaScript program can build. */
  predicate DistinctKeys(ms: seq<Member>)
  {
    ms == [] || (Lookup(ms[1..], ms[0].key).None? && DistinctKeys(ms[1..]))
  }

  /** A value whose objects all have distinct keys: the values JSON.stringify is given. */
  predicate WellFormed(v: Json)
  {
    match v
    case Arr(items) => forall i :: 0 <= i < |items| ==> WellFormed(items[i])
    case Obj(ms) => DistinctKeys(ms) && forall i :: 0 <= i < |ms| ==> WellFormed(ms[i].value)
    case _ => true
  }

  /**
   * Adds member `m` in front of the members `ms` parsed after it. When `ms`
   * already defines the key, the later value wins but the property keeps the
   * position of its first occurrence, as with repeated assignment.
   */
  function Prepend(m: Member, ms: seq<Member>): (r: seq<Member>)
    ensures r != [] && r[0].key == m.key && |r| <= |ms| + 1
  {
    match Lookup(ms, m.key)
    case Some(later) => [Member(m.key, later)] + Remove(ms, m.key)
    case None => [m] + ms
  }

  // ---------------------------------------------------------------------------
  // Characters
  // ---------------------------------------------------------------------------

  predicate IsDigit(c: char) { '0' <= c <= '9' }

  /** Insignificant whitespace of the JSON grammar. */
  predicate IsWs(c: char) { c == ' ' || c == '\t' || c == '\n' || c == '\r' }

  predicate IsHex(c: char) { '0' <= c <= '9' || 'a' <= c <= 'f' || 'A' <= c <= 'F' }

  function DigitChar(d: nat): (c: char)
    requires d < 10
    ensures IsDigit(c) && c as int - '0' as int == d
  {
    ('0' as int + d) as char
  }

  function HexVal(c: char): (d: nat)
    requires IsHex(c)
    ensures d < 16
  {
    if '0' <= c <= '9' then c as int - '0' as int
    else if 'a' <= c <= 'f' then c as int - 'a' as int + 10
    else c as int - 'A' as int + 10
  }

  /** The lower-case hexadecimal digit JSON.stringify writes in a \u escape. */
  function HexDigit(d: nat): (c: char)
    requires d < 16
    ensures IsHex(c) && HexVal(c) == d
  {
    if d < 10 then ('0' as int + d) as char else ('a' as int + d - 10) as char
  }

  // ---------------------------------------------------------------------------
  // Encoding (JSON.stringify, no indentation)
  // ---------------------------------------------------------------------------

  /** Decimal digits of `n`, without leading zeros. */
  function EncodeNat(n: nat): (r: string)
    ensures |r| > 0 && IsDigit(r[0])
    ensures n == 0 <==> r[0] == '0'
  {
    if n < 10 then [DigitChar(n)] else EncodeNat(n / 10) + [DigitChar(n % 10)]
  }

  function EncodeInt(n: int): (r: string)
  {
    if n < 0 then "-" + EncodeNat(-n) else EncodeNat(n)
  }

  /** One string character as it appears between the quotes. */
  function EscapeChar(c: char): (r: string)
  {
    if c == '"' then "\\\""
    else if c == '\\' then "\\\\"
    else if c == '\U{8}' then "\\b"
    else if c == '\U{C}' then "\\f"
    else if c == '\n' then "\\n"
    else if c == '\r' then "\\r"
    else if c == '\t' then "\\t"
    else if c < ' ' then "\\u00" + [HexDigit(c as int / 16), HexDigit(c as int % 16)]
    else [c]
  }

  /** The escaped characters of `s`, written in front of `rest`. */
  function WriteChars(s: string, rest: seq<char>): (r: seq<char>)
  {
    if s == [] then rest else EscapeChar(s[0]) + WriteChars(s[1..], rest)
  }

  /** A string literal: the escaped characters between double quotes. */
  function WriteString(s: string, rest: seq<char>): (r: seq<char>)
  {
    ['"'] + WriteChars(s, ['"'] + rest)
  }

  /** The text of `v`, written in front of `rest`. */
  function Write(v: Json, rest: seq<char>): (r: seq<char>)
    decreases v
  {
    match v
    case Null => "null" + rest
    case Bool(b) => (if b then "true" else "false") + rest
    case Num(n) => EncodeInt(n) + rest
    case Str(s) => WriteString(s, rest)
    case Arr(items) => ['['] + WriteItems(items, [']'] + rest)
    case Obj(ms) => ['{'] + WriteMembers(ms, ['}'] + rest)
  }

  /** The array elements, separated by commas. */
  function WriteItems(items: seq<Json>, rest: seq<char>): (r: seq<char>)
    decreases items
  {
    if items == [] then rest
    else if |items| == 1 then Write(items[0], rest)
    else Write(items[0], [','] + WriteItems(items[1..], rest))
  }

  function WriteMember(m: Member, rest: seq<char>): (r: seq<char>)
    decreases m
  {
    WriteString(m.key, [':'] + Write(m.value, rest))
  }

  /** The object members, separated by commas. */
  function WriteMembers(ms: seq<Member>, rest: seq<char>): (r: seq<char>)
    decreases ms
  {
    if ms == [] then rest
    else if |ms| == 1 then WriteMember(ms[0], rest)
    else WriteMember(ms[0], [','] + WriteMembers(ms[1..], rest))
  }

  /**
   * JSON.stringify: the compact text of a value. It starts like a JSON value,
   * so it is never the empty string, and JSON.parse gives the value back.
   */
  function Encode(v: Json): (r: string)
    ensures r != [] && StartsValue(r[0])
    ensures WellFormed(v) ==> Decode(r) == Some(v)
  {
    WriteStartsValue(v, []);
    if WellFormed(v) then
      ParseValueWritten(v, []);
      Write(v, [])
    else
      Write(v, [])
  }

  // ---------------------------------------------------------------------------
  // Decoding (JSON.parse); None stands for the SyntaxError it throws
  // ---------------------------------------------------------------------------

  function SkipWs(s: seq<char>): (r: seq<char>)
    ensures |r| <= |s|
    ensures r == [] || !IsWs(r[0])
  {
    if s != [] && IsWs(s[0]) then SkipWs(s[1..]) else s
  }

  predicate AllDigits(s: seq<char>)
  {
    forall i :: 0 <= i < |s| ==> IsDigit(s[i])
  }

  /** The number of digits `s` starts with. */
  function LeadingDigits(s: seq<char>): (k: nat)
    ensures k <= |s|
    ensures forall i :: 0 <= i < k ==> IsDigit(s[i])
    ensures k == |s| || !IsDigit(s[k])
  {
    if s != [] && IsDigit(s[0]) then 1 + LeadingDigits(s[1..]) else 0
  }

  /** The number a run of decimal digits denotes. */
  function DigitsValue(ds: seq<char>): (n: nat)
    requires AllDigits(ds)
  {
    if ds == [] then 0
    else
      var last := ds[|ds| - 1];
      assert IsDigit(last);
      DigitsValue(ds[..|ds| - 1]) * 10 + (last as int - '0' as int)
  }

  /** An unsigned integer: `0`, or a non-zero digit followed by digits. */
  function ParseNat(s: seq<char>): (r: Option<(nat, seq<char>)>)
    ensures r.Some? ==> |r.value.1| < |s|
  {
    if s == [] || !IsDigit(s[0]) then None
    else if s[0] == '0' then Some((0, s[1..]))
    else
      var k := LeadingDigits(s);
      Some((DigitsValue(s[..k]), s[k..]))
  }

  function ParseInt(s: seq<char>): (r: Option<(int, seq<char>)>)
    ensures r.Some? ==> |r.value.1| < |s|
  {
    if s != [] && s[0] == '-' then
      match ParseNat(s[1..])
      case None => None
      case Some((n, rest)) => Some((-(n as int), rest))
    else
      match ParseNat(s)
      case None => None
      case Some((n, rest)) => Some((n as int, rest))
  }

  /** The character an escape sequence stands for; `s` follows the backslash. */
  function ParseEscape(s: seq<char>): (r: Option<(char, seq<char>)>)
    ensures r.Some? ==> |r.value.1| < |s|
  {
    if s == [] then None
    else if s[0] == '"' || s[0] == '\\' || s[0] == '/' then Some((s[0], s[1..]))
    else if s[0] == 'b' then Some(('\U{8}', s[1..]))
    else if s[0] == 'f' then Some(('\U{C}', s[1..]))
    else if s[0] == 'n' then Some(('\n', s[1..]))
    else if s[0] == 'r' then Some(('\r', s[1..]))
    else if s[0] == 't' then Some(('\t', s[1..]))
    else if s[0] == 'u' then
      match CodeUnit(s[1..])
      case None => None
      case Some(hi) =>
        if hi < 0xD800 || 0xE000 <= hi then Some((hi as char, s[5..]))
        else if hi < 0xDC00 && |s| >= 7 && s[5] == '\\' && s[6] == 'u' then
          // a high surrogate escape followed by a low one: one supplementary character
          match CodeUnit(s[7..])
          case Some(lo) =>
            if 0xDC00 <= lo < 0xE000 then
              Some(((0x10000 + (hi - 0xD800) * 0x400 + (lo - 0xDC00)) as char, s[11..]))
            else None
          case None => None
        else None
    else None
  }

  /** The UTF-16 code unit named by the four hexadecimal digits `s` starts with. */
  function CodeUnit(s: seq<char>): (r: Option<nat>)
    ensures r.Some? ==> |s| >= 4 && r.value < 0x10000
  {
    if |s| >= 4 && IsHex(s[0]) && IsHex(s[1]) && IsHex(s[2]) && IsHex(s[3]) then
      Some(HexVal(s[0]) * 4096 + HexVal(s[1]) * 256 + HexVal(s[2]) * 16 + HexVal(s[3]))
    else None
  }

  /** The characters of a string literal up to its closing quote; `s` follows the opening quote. */
  function ParseChars(s: seq<char>): (r: Option<(string, seq<char>)>)
    ensures r.Some? ==> |r.value.1| < |s|
  {
    if s == [] then None
    else if s[0] == '"' then Some(("", s[1..]))
    else if s[0] == '\\' then
      match ParseEscape(s[1..])
      case None => None
      case Some((c, rest)) =>
        match ParseChars(rest)
        case None => None
        case Some((t, rest')) => Some(([c] + t, rest'))
    else if s[0] < ' ' then None
    else
      match ParseChars(s[1..])
      case None => None
      case Some((t, rest)) => Some(([s[0]] + t, rest))
  }

  function ParseLiteral(t: seq<char>, word: string, v: Json): (r: Option<(Json, seq<char>)>)
    requires |word| > 0
    ensures r.Some? ==> |r.value.1| < |t|
  {
    if |word| <= |t| && t[..|word|] == word then Some((v, t[|word|..])) else None
  }

  /** A value after optional whitespace, and the text that follows it. */
  function ParseValue(s: seq<char>): (r: Option<(Json, seq<char>)>)
    ensures r.Some? ==> |r.value.1| < |s|
    decreases |s|, 1
  {
    var t := SkipWs(s);
    if t == [] then None
    else if t[0] == 'n' then ParseLiteral(t, "null", Null)
    else if t[0] == 't' then ParseLiteral(t, "true", Bool(true))
    else if t[0] == 'f' then ParseLiteral(t, "false", Bool(false))
    else if t[0] == '"' then
      match ParseChars(t[1..])
      case None => None
      case Some((str, rest)) => Some((Str(str), rest))
    else if t[0] == '-' || IsDigit(t[0]) then
      match ParseInt(t)
      case None => None
      case Some((n, rest)) => Some((Num(n), rest))
    else if t[0] == '[' then ParseArray(t[1..])
    else if t[0] == '{' then ParseObject(t[1..])
    else None
  }

  /** An array after its opening bracket. */
  function ParseArray(s: seq<char>): (r: Option<(Json, seq<char>)>)
    ensures r.Some? ==> |r.value.1| < |s|
    decreases |s|, 3
  {
    var u := SkipWs(s);
    if u != [] && u[0] == ']' then Some((Arr([]), u[1..]))
    else
      match ParseElements(u)
      case None => None
      case Some((items, rest)) => Some((Arr(items), rest))
  }

  /** One or more comma-separated values and the closing bracket. */
  function ParseElements(s: seq<char>): (r: Option<(seq<Json>, seq<char>)>)
    ensures r.Some? ==> |r.value.1| < |s|
    decreases |s|, 2
  {
    match ParseValue(s)
    case None => None
    case Some((v, rest)) =>
      var u := SkipWs(rest);
      if u == [] then None
      else if u[0] == ']' then Some(([v], u[1..]))
      else if u[0] == ',' then
        match ParseElements(u[1..])
        case None => None
        case Some((vs, rest')) => Some(([v] + vs, rest'))
      else None
  }

  /** An object after its opening brace. */
  function ParseObject(s: seq<char>): (r: Option<(Json, seq<char>)>)
    ensures r.Some? ==> |r.value.1| < |s|
    decreases |s|, 4
  {
    var u := SkipWs(s);
    if u != [] && u[0] == '}' then Some((Obj([]), u[1..]))
    else
      match ParseMembers(u)
      case None => None
      case Some((ms, rest)) => Some((Obj(ms), rest))
  }

  /** One or more comma-separated members and the closing brace. */
  function ParseMembers(s: seq<char>): (r: Option<(seq<Member>, seq<char>)>)
    ensures r.Some? ==> |r.value.1| < |s|
    decreases |s|, 3
  {
    match ParseMember(s)
    case None => None
    case Some((m, rest)) =>
      var w := SkipWs(rest);
      if w == [] then None
      else if w[0] == '}' then Some(([m], w[1..]))
      else if w[0] == ',' then
        match ParseMembers(w[1..])
        case None => None
        case Some((ms, rest')) => Some((Prepend(m, ms), rest'))
      else None
  }

  /** One `"key": value` member after optional whitespace. */
  function ParseMember(s: seq<char>): (r: Option<(Member, seq<char>)>)
    ensures r.Some? ==> |r.value.1| < |s|
    decreases |s|, 2
  {
    var t := SkipWs(s);
    if t == [] || t[0] != '"' then None
    else
      match ParseChars(t[1..])
      case None => None
      case Some((key, rest)) =>
        var u := SkipWs(rest);
        if u == [] || u[0] != ':' then None
        else
          match ParseValue(u[1..])
          case None => None
          case Some((v, rest')) => Some((Member(key, v), rest'))
  }

  /**
   * JSON.parse: one value, surrounded by nothing but whitespace. Every object
   * it builds has distinct keys.
   */
  function Decode(s: string): (r: Option<Json>)
    ensures r.Some? ==> WellFormed(r.value)
  {
    ParsedValueWellFormed(s);
    match ParseValue(s)
    case None => None
    case Some((v, rest)) => if SkipWs(rest) == [] then Some(v) else None
  }

  // ---------------------------------------------------------------------------
  // Round trip: JSON.parse(JSON.stringify(v)) gives back v
  // ---------------------------------------------------------------------------

  /** A character a value's text can begin with. */
  predicate StartsValue(c: char)
  {
    c == 'n' || c == 't' || c == 'f' || c == '"' || c == '-' || IsDigit(c) || c == '[' || c == '{'
  }

  lemma {:induction false} DigitsValueEncodeNat(n: nat)
    ensures AllDigits(EncodeNat(n)) && DigitsValue(EncodeNat(n)) == n
  {
    EncodeNatDigits(n);
    if n >= 10 {
      var e := EncodeNat(n / 10);
      assert EncodeNat(n)[..|EncodeNat(n)| - 1] == e;
      DigitsValueEncodeNat(n / 10);
    }
  }

  lemma {:induction false} LeadingDigitsAppend(ds: seq<char>, rest: seq<char>)
    requires AllDigits(ds)
    requires rest == [] || !IsDigit(rest[0])
    ensures LeadingDigits(ds + rest) == |ds|
  {
    if ds != [] {
      assert (ds + rest)[1..] == ds[1..] + rest;
      LeadingDigitsAppend(ds[1..], rest);
    }
  }

  lemma {:induction false} EncodeNatDigits(n: nat)
    ensures AllDigits(EncodeNat(n))
  {
    if n >= 10 {
      EncodeNatDigits(n / 10);
    }
  }

  lemma {:induction false} ParseNatEncode(n: nat, rest: seq<char>)
    requires rest == [] || !IsDigit(rest[0])
    ensures ParseNat(EncodeNat(n) + rest) == Some((n, rest))
  {
    var e := EncodeNat(n);
    var s := e + rest;
    if n == 0 {
      assert s[1..] == rest;
    } else {
      EncodeNatDigits(n);
      LeadingDigitsAppend(e, rest);
      assert s[..|e|] == e && s[|e|..] == rest;
      DigitsValueEncodeNat(n);
    }
  }

  /** Integers: the digits are read back up to the first non-digit. */
  lemma {:induction false} ParseIntEncode(n: int, rest: seq<char>)
    requires rest == [] || !IsDigit(rest[0])
    ensures ParseInt(EncodeInt(n) + rest) == Some((n, rest))
  {
    if n < 0 {
      ParseNegEncode(-n, rest);
    } else {
      assert (EncodeNat(n) + rest)[0] != '-';
      ParseNatEncode(n, rest);
    }
  }

  lemma {:induction false} ParseNegEncode(n: nat, rest: seq<char>)
    requires n > 0
    requires rest == [] || !IsDigit(rest[0])
    ensures ParseInt("-" + EncodeNat(n) + rest) == Some((-(n as int), rest))
  {
    var s := "-" + EncodeNat(n) + rest;
    assert s[0] == '-' && s[1..] == EncodeNat(n) + rest;
    ParseNatEncode(n, rest);
  }

  lemma {:induction false} EscapeCharParse(c: char, tail: seq<char>, t: string, rest: seq<char>)
    requires ParseChars(tail) == Some((t, rest))
    ensures ParseChars(EscapeChar(c) + tail) == Some(([c] + t, rest))
  {
    var s := EscapeChar(c) + tail;
    if c == '"' || c == '\\' || c == '\U{8}' || c == '\U{C}' || c == '\n' || c == '\r' || c == '\t' {
      assert s[1..] == [EscapeChar(c)[1]] + tail;
      assert ParseEscape(s[1..]) == Some((c, tail));
    } else if c < ' ' {
      assert s[1..] == ['u', '0', '0', HexDigit(c as int / 16), HexDigit(c as int % 16)] + tail;
      ControlEscapeParse(c, tail);
    } else {
      assert s[1..] == tail;
    }
  }

  /** The `\u00XX` escape JSON.stringify writes for a control character reads back as that character. */
  lemma ControlEscapeParse(c: char, tail: seq<char>)
    requires c < ' '
    ensures ParseEscape(['u', '0', '0', HexDigit(c as int / 16), HexDigit(c as int % 16)] + tail) == Some((c, tail))
  {
    var h1, h2 := HexDigit(c as int / 16), HexDigit(c as int % 16);
    var e := ['u', '0', '0', h1, h2] + tail;
    assert e[1..][..4] == ['0', '0', h1, h2] && e[5..] == tail;
    assert HexVal(h1) * 16 + HexVal(h2) == c as int;
    assert CodeUnit(e[1..]) == Some(c as int);
  }

  /** String contents: the escaped text up to the closing quote decodes to the original characters. */
  lemma {:induction false} ParseCharsWritten(s: string, rest: seq<char>)
    ensures ParseChars(WriteChars(s, ['"'] + rest)) == Some((s, rest))
  {
    if s == [] {
      assert (['"'] + rest)[1..] == rest;
    } else {
      ParseCharsWritten(s[1..], rest);
      EscapeCharParse(s[0], WriteChars(s[1..], ['"'] + rest), s[1..], rest);
      assert [s[0]] + s[1..] == s;
    }
  }

  lemma SkipWsNone(s: seq<char>)
    requires s != [] && !IsWs(s[0])
    ensures SkipWs(s) == s
  {
  }

  lemma {:induction false} WriteStartsValue(v: Json, rest: seq<char>)
    ensures Write(v, rest) != [] && StartsValue(Write(v, rest)[0])
  {
    match v
    case Num(n) =>
    case _ =>
  }

  lemma {:induction false} ParseValueWritten(v: Json, rest: seq<char>)
    requires WellFormed(v)
    requires rest == [] || !IsDigit(rest[0])
    ensures ParseValue(Write(v, rest)) == Some((v, rest))
    decreases v, 2
  {
    var s := Write(v, rest);
    WriteStartsValue(v, rest);
    SkipWsNone(s);
    match v
    case Null =>
      assert s[..4] == "null" && s[4..] == rest;
    case Bool(b) =>
      if b {
        assert s[..4] == "true" && s[4..] == rest;
      } else {
        assert s[..5] == "false" && s[5..] == rest;
      }
    case Num(n) =>
      ParseIntEncode(n, rest);
    case Str(str) =>
      ParseCharsWritten(str, rest);
    case Arr(items) =>
      ParseArrayWritten(items, rest);
    case Obj(ms) =>
      ParseObjectWritten(ms, rest);
  }

  lemma {:induction false} ParseArrayWritten(items: seq<Json>, rest: seq<char>)
    requires forall i :: 0 <= i < |items| ==> WellFormed(items[i])
    ensures ParseArray(WriteItems(items, [']'] + rest)) == Some((Arr(items), rest))
    decreases items, 1
  {
    var s := WriteItems(items, [']'] + rest);
    if items == [] {
      SkipWsNone(s);
    } else {
      var x := items[0];
      var after := if |items| == 1 then [']'] + rest else [','] + WriteItems(items[1..], [']'] + rest);
      WriteStartsValue(x, after);
      SkipWsNone(s);
      ParseElementsWritten(items, rest);
    }
  }

  lemma {:induction false} ParseElementsWritten(items: seq<Json>, rest: seq<char>)
    requires items != []
    requires forall i :: 0 <= i < |items| ==> WellFormed(items[i])
    ensures ParseElements(WriteItems(items, [']'] + rest)) == Some((items, rest))
    decreases items, 0
  {
    var x := items[0];
    var after := if |items| == 1 then [']'] + rest else [','] + WriteItems(items[1..], [']'] + rest);
    ParseValueWritten(x, after);
    SkipWsNone(after);
    if |items| == 1 {
      assert [x] == items;
    } else {
      ParseElementsWritten(items[1..], rest);
      assert [x] + items[1..] == items;
    }
  }

  lemma {:induction false} ParseObjectWritten(ms: seq<Member>, rest: seq<char>)
    requires DistinctKeys(ms) && forall i :: 0 <= i < |ms| ==> WellFormed(ms[i].value)
    ensures ParseObject(WriteMembers(ms, ['}'] + rest)) == Some((Obj(ms), rest))
    decreases ms, 2
  {
    var s := WriteMembers(ms, ['}'] + rest);
    if ms == [] {
      SkipWsNone(s);
    } else {
      var after := if |ms| == 1 then ['}'] + rest else [','] + WriteMembers(ms[1..], ['}'] + rest);
      assert s == WriteMember(ms[0], after);
      SkipWsNone(s);
      ParseMembersWritten(ms, rest);
    }
  }

  lemma {:induction false} ParseMembersWritten(ms: seq<Member>, rest: seq<char>)
    requires ms != []
    requires DistinctKeys(ms) && forall i :: 0 <= i < |ms| ==> WellFormed(ms[i].value)
    ensures ParseMembers(WriteMembers(ms, ['}'] + rest)) == Some((ms, rest))
    decreases ms, 1
  {
    if |ms| == 1 {
      var after := ['}'] + rest;
      ParseMemberWritten(ms[0], after);
      SkipWsNone(after);
      assert [ms[0]] == ms;
    } else {
      ParseMembersWrittenCons(ms, rest);
    }
  }

  /** Two or more members: the first, a comma, and the others merged behind it. */
  lemma {:induction false} ParseMembersWrittenCons(ms: seq<Member>, rest: seq<char>)
    requires |ms| >= 2
    requires DistinctKeys(ms) && forall i :: 0 <= i < |ms| ==> WellFormed(ms[i].value)
    ensures ParseMembers(WriteMembers(ms, ['}'] + rest)) == Some((ms, rest))
    decreases ms, 0
  {
    var tail := ms[1..];
    var t := WriteMembers(tail, ['}'] + rest);
    ParseMemberWritten(ms[0], [','] + t);
    MembersTail(ms);
    ParseMembersWritten(tail, rest);
    assert [ms[0]] + tail == ms;
    ParseMembersComma(ms[0], t, tail, rest);
  }

  /** The members after the first keep distinct keys, none of them the first's, and well-formed values. */
  lemma MembersTail(ms: seq<Member>)
    requires ms != []
    requires DistinctKeys(ms) && forall i :: 0 <= i < |ms| ==> WellFormed(ms[i].value)
    ensures Lookup(ms[1..], ms[0].key).None? && DistinctKeys(ms[1..])
    ensures forall i :: 0 <= i < |ms[1..]| ==> WellFormed(ms[1..][i].value)
  {
    forall i | 0 <= i < |ms[1..]| ensures WellFormed(ms[1..][i].value) {
      assert ms[1..][i] == ms[i + 1];
    }
  }

  /**
   * After one member and a comma, the members parsed from the rest are
   * merged behind it; a key the rest does not define goes in front as it is.
   */
  lemma ParseMembersComma(m: Member, t: seq<char>, tail: seq<Member>, rest: seq<char>)
    requires |tail| >= 1 && Lookup(tail, m.key).None?
    requires t == WriteMembers(tail, ['}'] + rest)
    requires ParseMember(WriteMember(m, [','] + t)) == Some((m, [','] + t))
    requires ParseMembers(t) == Some((tail, rest))
    ensures ParseMembers(WriteMembers([m] + tail, ['}'] + rest)) == Some(([m] + tail, rest))
  {
    var ms := [m] + tail;
    assert ms[0] == m && ms[1..] == tail;
    var after := [','] + t;
    SkipWsNone(after);
    assert after[1..] == t;
  }

  lemma {:induction false} ParseMemberWritten(m: Member, rest: seq<char>)
    requires WellFormed(m.value)
    requires rest == [] || !IsDigit(rest[0])
    ensures ParseMember(WriteMember(m, rest)) == Some((m, rest))
    decreases m, 0
  {
    var r1 := [':'] + Write(m.value, rest);
    var s := WriteMember(m, rest);
    SkipWsNone(s);
    ParseCharsWritten(m.key, r1);
    SkipWsNone(r1);
    ParseValueWritten(m.value, rest);
  }


  // ---------------------------------------------------------------------------
  // What JSON.parse returns is well formed: duplicate keys are merged
  // ---------------------------------------------------------------------------

  lemma {:induction false} LookupIndex(ms: seq<Member>, key: string) returns (i: nat)
    requires Lookup(ms, key).Some?
    ensures i < |ms| && ms[i].key == key && ms[i].value == Lookup(ms, key).value
  {
    if ms[0].key == key {
      i := 0;
    } else {
      var j := LookupIndex(ms[1..], key);
      i := j + 1;
    }
  }

  lemma {:induction false} LookupRemove(ms: seq<Member>, key: string, other: string)
    ensures Lookup(Remove(ms, key), other) == if other == key then None else Lookup(ms, other)
  {
    if ms != [] {
      LookupRemove(ms[1..], key, other);
    }
  }

  lemma {:induction false} RemoveDistinct(ms: seq<Member>, key: string)
    requires DistinctKeys(ms)
    ensures DistinctKeys(Remove(ms, key))
  {
    if ms != [] {
      RemoveDistinct(ms[1..], key);
      LookupRemove(ms[1..], key, ms[0].key);
    }
  }

  /**
   * Reading a property after `Prepend`: the later members' value when they
   * define the key, else `m`'s value for its own key; the last assignment wins.
   */
  lemma PrependLookup(m: Member, ms: seq<Member>, key: string)
    ensures Lookup(Prepend(m, ms), key) ==
      if Lookup(ms, key).Some? then Lookup(ms, key)
      else if key == m.key then Some(m.value)
      else None
  {
    match Lookup(ms, m.key)
    case None =>
      LookupCons(m, ms, key);
    case Some(later) =>
      LookupCons(Member(m.key, later), Remove(ms, m.key), key);
      LookupRemove(ms, m.key, key);
  }

  lemma PrependWellFormed(m: Member, ms: seq<Member>)
    requires WellFormed(m.value)
    requires DistinctKeys(ms) && forall i :: 0 <= i < |ms| ==> WellFormed(ms[i].value)
    ensures DistinctKeys(Prepend(m, ms))
    ensures forall i :: 0 <= i < |Prepend(m, ms)| ==> WellFormed(Prepend(m, ms)[i].value)
  {
    match Lookup(ms, m.key)
    case None =>
    case Some(later) =>
      var j := LookupIndex(ms, m.key);
      var removed := Remove(ms, m.key);
      RemoveDistinct(ms, m.key);
      LookupRemove(ms, m.key, m.key);
      forall i | 0 <= i < |removed| ensures WellFormed(removed[i].value) {
        var x := removed[i];
        assert x in ms;
        var k :| 0 <= k < |ms| && ms[k] == x;
      }
  }

  lemma {:induction false} ParsedValueWellFormed(s: seq<char>)
    ensures ParseValue(s).Some? ==> WellFormed(ParseValue(s).value.0)
    decreases |s|, 1
  {
    var t := SkipWs(s);
    if t != [] && t[0] == '[' {
      ParsedArrayWellFormed(t[1..]);
    } else if t != [] && t[0] == '{' {
      ParsedObjectWellFormed(t[1..]);
    }
  }

  lemma {:induction false} ParsedArrayWellFormed(s: seq<char>)
    ensures ParseArray(s).Some? ==> WellFormed(ParseArray(s).value.0)
    decreases |s|, 3
  {
    var u := SkipWs(s);
    if !(u != [] && u[0] == ']') {
      ParsedElementsWellFormed(u);
    }
  }

  lemma {:induction false} ParsedElementsWellFormed(s: seq<char>)
    ensures ParseElements(s).Some? ==>
      forall i :: 0 <= i < |ParseElements(s).value.0| ==> WellFormed(ParseElements(s).value.0[i])
    decreases |s|, 2
  {
    ParsedValueWellFormed(s);
    match ParseValue(s)
    case None =>
    case Some((v, rest)) =>
      var u := SkipWs(rest);
      if u != [] && u[0] == ',' {
        ParsedElementsWellFormed(u[1..]);
      }
  }

  lemma {:induction false} ParsedObjectWellFormed(s: seq<char>)
    ensures ParseObject(s).Some? ==> WellFormed(ParseObject(s).value.0)
    decreases |s|, 4
  {
    var u := SkipWs(s);
    if !(u != [] && u[0] == '}') {
      ParsedMembersWellFormed(u);
    }
  }

  lemma {:induction false} ParsedMembersWellFormed(s: seq<char>)
    ensures ParseMembers(s).Some? ==>
      var ms := ParseMembers(s).value.0;
      DistinctKeys(ms) && forall i :: 0 <= i < |ms| ==> WellFormed(ms[i].value)
    decreases |s|, 3
  {
    ParsedMemberWellFormed(s);
    match ParseMember(s)
    case None =>
    case Some((m, rest)) =>
      var w := SkipWs(rest);
      if w != [] && w[0] == ',' {
        ParsedMembersWellFormed(w[1..]);
        match ParseMembers(w[1..])
        case None =>
        case Some((ms, _)) => PrependWellFormed(m, ms);
      }
  }

  lemma {:induction false} ParsedMemberWellFormed(s: seq<char>)
    ensures ParseMember(s).Some? ==> WellFormed(ParseMember(s).value.0.value)
    decreases |s|, 2
  {
    var t := SkipWs(s);
    if t != [] && t[0] == '"' {
      match ParseChars(t[1..])
      case None =>
      case Some((key, rest)) =>
        var u := SkipWs(rest);
        if u != [] && u[0] == ':' {
          ParsedValueWellFormed(u[1..]);
        }
    }
  }

  // ---------------------------------------------------------------------------
  // Escaped surrogate pairs
  // ---------------------------------------------------------------------------

  /** The four lower-case hexadecimal digits of a UTF-16 code unit. */
  function Hex4(u: nat): (r: seq<char>)
    requires u < 0x10000
    ensures |r| == 4 && CodeUnit(r) == Some(u)
  {
    var q1, d0 := u / 16, u % 16;
    var q2, d1 := q1 / 16, q1 % 16;
    var d3, d2 := q2 / 16, q2 % 16;
    assert u == q1 * 16 + d0 && q1 == q2 * 16 + d1 && q2 == d3 * 16 + d2;
    [HexDigit(d3), HexDigit(d2), HexDigit(d1), HexDigit(d0)]
  }

  /** Only the first four characters name the code unit. */
  lemma CodeUnitPrefix(s: seq<char>, rest: seq<char>)
    requires |s| == 4
    ensures CodeUnit(s + rest) == CodeUnit(s)
  {
    assert (s + rest)[..4] == s;
  }

  /**
   * Every supplementary character, written as the escaped UTF-16 pair of its
   * high and low surrogates, reads back as that one character.
   */
  lemma SurrogatePairEscape(c: char, tail: seq<char>)
    requires c as int >= 0x10000
    ensures var v := c as int - 0x10000;
      ParseEscape(['u'] + Hex4(0xD800 + v / 0x400) + ['\\', 'u'] + Hex4(0xDC00 + v % 0x400) + tail) == Some((c, tail))
  {
    var v := c as int - 0x10000;
    var hi, lo := 0xD800 + v / 0x400, 0xDC00 + v % 0x400;
    SurrogateSplit(v);
    var h, l := Hex4(hi), Hex4(lo);
    PairText(h, l, tail);
    var e := ['u'] + h + ['\\', 'u'] + l + tail;
    CodeUnitPrefix(h, ['\\', 'u'] + l + tail);
    CodeUnitPrefix(l, tail);
    ParseEscapePair(e, hi, lo);
  }

  /** Where the pieces of an escaped pair sit in the text. */
  lemma PairText(h: seq<char>, l: seq<char>, tail: seq<char>)
    requires |h| == 4 && |l| == 4
    ensures var e := ['u'] + h + ['\\', 'u'] + l + tail;
      && |e| >= 11 && e[0] == 'u' && e[5] == '\\' && e[6] == 'u'
      && e[1..] == h + (['\\', 'u'] + l + tail) && e[7..] == l + tail && e[11..] == tail
  {
  }

  /** Splitting an offset below 2^20 into its high and low ten bits, as the surrogates carry them. */
  lemma SurrogateSplit(v: int)
    requires 0 <= v < 0x100000
    ensures 0 <= v / 0x400 < 0x400 && 0 <= v % 0x400 < 0x400
    ensures (v / 0x400) * 0x400 + v % 0x400 == v
  {
  }

  /** The pair branch of `ParseEscape`: a high and a low surrogate escape make one character. */
  lemma ParseEscapePair(e: seq<char>, hi: nat, lo: nat)
    requires |e| >= 11 && e[0] == 'u' && e[5] == '\\' && e[6] == 'u'
    requires CodeUnit(e[1..]) == Some(hi) && 0xD800 <= hi < 0xDC00
    requires CodeUnit(e[7..]) == Some(lo) && 0xDC00 <= lo < 0xE000
    ensures ParseEscape(e) == Some(((0x10000 + (hi - 0xD800) * 0x400 + (lo - 0xDC00)) as char, e[11..]))
  {
  }

  /** `\ud83d\ude00`, the escaped UTF-16 pair of U+1F600, reads as that one character. */
  lemma EscapedSurrogatePair()
    ensures Decode("\"\\ud83d\\ude00\"") == Some(Str("\U{1F600}"))
  {
    var e := "ud83d\\ude00\"";
    assert CodeUnit(e[1..]) == Some(0xD83D);
    assert CodeUnit(e[7..]) == Some(0xDE00);
    assert ParseEscape(e) == Some(('\U{1F600}', "\""));
    var body := "\\" + e;
    assert body[1..] == e;
    var close := "\"";
    assert close[0] == '"' && close[1..] == [];
    assert ParseChars(close) == Some(("", []));
    assert ['\U{1F600}'] + "" == "\U{1F600}";
    assert ParseChars(body) == Some(("\U{1F600}", []));
    var text := "\"" + body;
    assert text[1..] == body;
    assert SkipWs(text) == text;
  }
}

/**
 * `JSON.stringify` (section 25.5.2 of ECMA-262, 2023 edition) on a small
 * JSON-like value type: the serialisation every intercepted argument goes
 * through. Numbers are the integers a double holds exactly; `undefined`
 * serialises to nothing.
 */
module Json {
  import opened Wrappers
  import opened Strings

  /**
   * The integers of magnitude at most 2^53 - 1, which a double holds exactly.
   * Each is below 10^21, so `Number::toString` writes all its digits and no
   * exponent.
   */
  type SafeInteger = n: int | -0x1F_FFFF_FFFF_FFFF <= n <= 0x1F_FFFF_FFFF_FFFF

  datatype Value =
    | Undefined
    | Null
    | Bool(b: bool)
    | Number(n: SafeInteger)
    | Str(s: string)
    | Array(items: seq<Value>)
    | Object(members: seq<Member>)

  /** One own enumerable property of an object, in property order. */
  datatype Member = Member(key: string, value: Value)

  /** No raw control character (below U+0020), so in particular no line break. */
  predicate Printable(s: string) {
    forall i :: 0 <= i < |s| ==> s[i] >= ' '
  }

  // ----- strings (QuoteJSONString) -----

  function HexDigit(d: nat): char
    requires d < 16
  {
    if d < 10 then ('0' as int + d) as char else ('a' as int + d - 10) as char
  }

  /** One code unit as it appears inside the quotes. */
  function EscapeChar(c: char): string {
    if c == '"' then ['\\', '"']
    else if c == '\\' then ['\\', '\\']
    else if c as int == 0x08 then ['\\', 'b']
    else if c as int == 0x09 then ['\\', 't']
    else if c as int == 0x0A then ['\\', 'n']
    else if c as int == 0x0C then ['\\', 'f']
    else if c as int == 0x0D then ['\\', 'r']
    else if c < ' ' then ['\\', 'u', '0', '0', HexDigit(c as int / 16), HexDigit(c as int % 16)]
    else [c]
  }

  /** The parts written one after the other. */
  function Concat(parts: seq<string>): string {
    if parts == [] then [] else parts[0] + Concat(parts[1..])
  }

  /** Every character of `s` written as it appears inside the quotes. */
  function Escape(s: string): string {
    Concat(seq(|s|, i requires 0 <= i < |s| => EscapeChar(s[i])))
  }

  lemma EscapeCons(s: string)
    requires s != []
    ensures Escape(s) == EscapeChar(s[0]) + Escape(s[1..])
  {
    var parts := seq(|s|, i requires 0 <= i < |s| => EscapeChar(s[i]));
    assert parts[1..] == seq(|s[1..]|, i requires 0 <= i < |s[1..]| => EscapeChar(s[1..][i]));
  }

  /**
   * The string literal: the escaped text between double quotes. It holds no
   * raw control character, whatever `s` holds.
   */
  function Quote(s: string): (r: string)
    ensures |r| >= 2 && r[0] == '"' && r[|r| - 1] == '"'
    ensures Printable(r)
  {
    EscapePrintable(s);
    ['"'] + Escape(s) + ['"']
  }

  // ----- a decoder for string literals, the partner of Quote -----

  function HexValue(c: char): Option<nat> {
    if '0' <= c <= '9' then Some(c as int - '0' as int)
    else if 'a' <= c <= 'f' then Some(c as int - 'a' as int + 10)
    else if 'A' <= c <= 'F' then Some(c as int - 'A' as int + 10)
    else None
  }

  /** The code point written by four hexadecimal digits. */
  function Hex4(h: string): Option<nat>
    requires |h| == 4
  {
    match (HexValue(h[0]), HexValue(h[1]), HexValue(h[2]), HexValue(h[3]))
    case (Some(a), Some(b), Some(c), Some(d)) => Some(((a * 16 + b) * 16 + c) * 16 + d)
    case _ => None
  }

  /** The escape sequence at the start of `e`: the character it stands for and its length. */
  function DecodeEscape(e: string): (r: Option<(char, nat)>)
    requires |e| >= 2 && e[0] == '\\'
    ensures r.Some? ==> 2 <= r.value.1 <= |e|
  {
    match e[1]
    case '"' => Some(('"', 2))
    case '\\' => Some(('\\', 2))
    case '/' => Some(('/', 2))
    case 'b' => Some((8 as char, 2))
    case 'f' => Some((12 as char, 2))
    case 'n' => Some((10 as char, 2))
    case 'r' => Some((13 as char, 2))
    case 't' => Some((9 as char, 2))
    case 'u' =>
      if |e| < 6 then None
      else (match Hex4(e[2..6])
        case Some(v) =>
          if v < 0xD800 || 0xE000 <= v < 0x11_0000 then Some((v as char, 6)) else None
        case None => None)
    case _ => None
  }

  function Prepend(c: char, o: Option<string>): Option<string> {
    match o
    case Some(s) => Some([c] + s)
    case None => None
  }

  /** The characters written by the inside of a JSON string literal, if it is well formed. */
  function Unescape(e: string): Option<string>
    decreases |e|
  {
    if e == [] then Some([])
    else if e[0] == '\\' then
      if |e| < 2 then None
      else (match DecodeEscape(e)
        case Some((c, n)) => Prepend(c, Unescape(e[n..]))
        case None => None)
    else if e[0] == '"' || e[0] < ' ' then None
    else Prepend(e[0], Unescape(e[1..]))
  }

  /** The characters written by a JSON string literal, if `q` is one. */
  function Unquote(q: string): Option<string> {
    if |q| >= 2 && q[0] == '"' && q[|q| - 1] == '"' then Unescape(q[1..|q| - 1]) else None
  }

  /** The four hexadecimal digits of a `\u00XX` escape give back the control character. */
  lemma HexEscape(c: char)
    requires c < ' '
    ensures Hex4(['0', '0', HexDigit(c as int / 16), HexDigit(c as int % 16)]) == Some(c as int)
  {
    var h := c as int / 16;
    var l := c as int % 16;
    assert HexValue(HexDigit(h)) == Some(h);
    assert HexValue(HexDigit(l)) == Some(l);
  }

  /** An escape sequence written for `c` decodes to `c` and is read whole. */
  lemma DecodeEscapeChar(c: char, rest: string)
    requires EscapeChar(c)[0] == '\\'
    ensures DecodeEscape(EscapeChar(c) + rest) == Some((c, |EscapeChar(c)|))
  {
    var e := EscapeChar(c) + rest;
    if c < ' ' && c as int !in {8, 9, 10, 12, 13} {
      assert e[2..6] == ['0', '0', HexDigit(c as int / 16), HexDigit(c as int % 16)];
      HexEscape(c);
    }
  }

  lemma UnescapeStep(c: char, rest: string)
    ensures Unescape(EscapeChar(c) + rest) == Prepend(c, Unescape(rest))
  {
    var e := EscapeChar(c) + rest;
    assert e[|EscapeChar(c)|..] == rest;
    if EscapeChar(c)[0] == '\\' {
      DecodeEscapeChar(c, rest);
    }
  }

  /** Decoding a quoted string gives the original string back. */
  lemma {:induction false} UnescapeEscape(s: string)
    ensures Unescape(Escape(s)) == Some(s)
  {
    if s != [] {
      UnescapeEscape(s[1..]);
      EscapeCons(s);
      UnescapeStep(s[0], Escape(s[1..]));
      assert [s[0]] + s[1..] == s;
    }
  }

  lemma UnquoteQuote(s: string)
    ensures Unquote(Quote(s)) == Some(s)
  {
    var q := Quote(s);
    assert q[1..|q| - 1] == Escape(s);
    UnescapeEscape(s);
  }

  /** Text with no character that needs escaping is quoted as it is. */
  lemma {:induction false} EscapePlain(s: string)
    requires forall i :: 0 <= i < |s| ==> s[i] >= ' ' && s[i] != '"' && s[i] != '\\'
    ensures Escape(s) == s
  {
    if s != [] {
      EscapePlain(s[1..]);
      EscapeCons(s);
      assert [s[0]] + s[1..] == s;
    }
  }

  /** Text with no character that needs escaping is serialised as itself between quotes. */
  lemma QuotePlain(s: string)
    requires forall i :: 0 <= i < |s| ==> s[i] >= ' ' && s[i] != '"' && s[i] != '\\'
    ensures Quote(s) == "\"" + s + "\""
  {
    EscapePlain(s);
  }

  lemma {:induction false} EscapePrintable(s: string)
    ensures Printable(Escape(s))
  {
    if s != [] {
      EscapePrintable(s[1..]);
      EscapeCons(s);
      var c := s[0];
      if c < ' ' && c as int !in {8, 9, 10, 12, 13} {
        assert HexDigit(c as int / 16) >= ' ' && HexDigit(c as int % 16) >= ' ';
      }
      assert Printable(EscapeChar(c));
    }
  }

  // ----- numbers (Number::toString on integral values) -----

  function DigitChar(d: nat): char
    requires d < 10
  {
    ('0' as int + d) as char
  }

  /** Decimal digits without leading zeros. */
  function Digits(n: nat): string
  {
    if n < 10 then [DigitChar(n)] else Digits(n / 10) + [DigitChar(n % 10)]
  }

  function IntText(n: int): string {
    if n < 0 then ['-'] + Digits(-n) else Digits(n)
  }

  /** The value of a nonempty string of decimal digits. */
  function ParseDigits(s: string): Option<nat>
    decreases |s|
  {
    if s == [] || !('0' <= s[|s| - 1] <= '9') then None
    else
      var d := s[|s| - 1] as int - '0' as int;
      if |s| == 1 then Some(d)
      else match ParseDigits(s[..|s| - 1])
        case Some(m) => Some(m * 10 + d)
        case None => None
  }

  /** The integer written by an optional minus sign and decimal digits. */
  function ParseInt(s: string): Option<int> {
    if s != [] && s[0] == '-' then
      match ParseDigits(s[1..])
      case Some(m) => Some(0 - m as int)
      case None => None
    else
      match ParseDigits(s)
      case Some(m) => Some(m)
      case None => None
  }

  lemma {:induction false} ParseDigitsOfDigits(n: nat)
    ensures Digits(n) != [] && ParseDigits(Digits(n)) == Some(n)
    ensures Printable(Digits(n)) && '-' !in Digits(n)
  {
    if n >= 10 {
      ParseDigitsOfDigits(n / 10);
      var s := Digits(n);
      assert s[..|s| - 1] == Digits(n / 10);
    }
  }

  /** Reading back a serialised integer gives the integer. */
  lemma IntTextRoundTrip(n: int)
    ensures ParseInt(IntText(n)) == Some(n)
    ensures Printable(IntText(n))
  {
    var t := IntText(n);
    if n < 0 {
      var m: nat := -n;
      ParseDigitsOfDigits(m);
      assert t == ['-'] + Digits(m);
      assert t[1..] == Digits(m);
      assert ParseDigits(t[1..]) == Some(m);
    } else {
      ParseDigitsOfDigits(n);
      assert t[0] in Digits(n);
      assert t[0] != '-';
    }
  }

  // ----- values (SerializeJSONProperty, SerializeJSONArray, SerializeJSONObject) -----

  /** The non-missing entries, in order. */
  function Present(texts: seq<Option<string>>): (r: seq<string>)
    ensures |r| <= |texts|
  {
    if texts == [] then []
    else match texts[0]
      case Some(t) => [t] + Present(texts[1..])
      case None => Present(texts[1..])
  }

  /** A member's `"key":value` text, missing when its value serialises to nothing. */
  function MemberText(key: string, value: Option<string>): Option<string> {
    match value
    case Some(t) => Some(Quote(key) + [':'] + t)
    case None => None
  }

  /**
   * The result of `JSON.stringify(v)`: missing exactly for `undefined`; inside an array
   * a missing element is written `null`; inside an object a member whose
   * value is missing is left out.
   */
  function Stringify(v: Value): (r: Option<string>)
    ensures r.None? <==> v.Undefined?
  {
    match v
    case Undefined => None
    case Null => Some("null")
    case Bool(b) => Some(if b then "true" else "false")
    case Number(n) => Some(IntText(n))
    case Str(s) => Some(Quote(s))
    case Array(items) =>
      Some(['['] + Join(seq(|items|, i requires 0 <= i < |items| => Stringify(items[i]).GetOr("null")), [',']) + [']'])
    case Object(members) =>
      Some(['{'] + Join(Present(seq(|members|, i requires 0 <= i < |members| =>
        MemberText(members[i].key, Stringify(members[i].value)))), [',']) + ['}'])
  }

  lemma {:induction false} JoinPrintable(parts: seq<string>, sep: string)
    requires Printable(sep)
    requires forall i :: 0 <= i < |parts| ==> Printable(parts[i])
    ensures Printable(Join(parts, sep))
    decreases |parts|
  {
    if |parts| > 1 {
      JoinPrintable(parts[1..], sep);
    }
  }

  lemma {:induction false} PresentPrintable(texts: seq<Option<string>>)
    requires forall i :: 0 <= i < |texts| ==> texts[i].Some? ==> Printable(texts[i].value)
    ensures forall i :: 0 <= i < |Present(texts)| ==> Printable(Present(texts)[i])
  {
    if texts != [] {
      PresentPrintable(texts[1..]);
    }
  }

  /**
   * Serialised text never holds a raw control character, so in particular
   * never a line break: string contents are escaped and the punctuation
   * between the parts is printable.
   */
  lemma {:induction false} StringifyPrintable(v: Value)
    ensures Stringify(v).Some? ==> Printable(Stringify(v).value)
    decreases v
  {
    match v
    case Undefined =>
    case Null =>
    case Bool(b) =>
    case Number(n) => IntTextRoundTrip(n);
    case Str(s) =>
    case Array(items) =>
      var texts := seq(|items|, i requires 0 <= i < |items| => Stringify(items[i]).GetOr("null"));
      forall i | 0 <= i < |items| ensures Printable(texts[i]) {
        StringifyPrintable(items[i]);
      }
      JoinPrintable(texts, [',']);
    case Object(members) =>
      var texts := seq(|members|, i requires 0 <= i < |members| =>
        MemberText(members[i].key, Stringify(members[i].value)));
      forall i | 0 <= i < |members| ensures texts[i].Some? ==> Printable(texts[i].value) {
        StringifyPrintable(members[i].value);
        EscapePrintable(members[i].key);
      }
      PresentPrintable(texts);
      JoinPrintable(Present(texts), [',']);
  }
}

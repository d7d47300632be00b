// The JSON text that the timer registry keeps under its active-list key:
// JSON.stringify of an array of task ids, and the JSON.parse of it that the
// registry performs at start-up.
module KeyList {
  import opened Js

  function HexDigit(d: nat): char
    requires d < 16
  {
    "0123456789abcdef"[d]
  }

  /** How JSON.stringify writes one character of a string literal. */
  function EscapeChar(c: char): string
  {
    if c == '"' then ['\\', '"']
    else if c == '\\' then ['\\', '\\']
    else if c == '\U{8}' then ['\\', 'b']
    else if c == '\t' then ['\\', 't']
    else if c == '\n' then ['\\', 'n']
    else if c == '\U{C}' then ['\\', 'f']
    else if c == '\r' then ['\\', 'r']
    else if c < ' ' then ['\\', 'u', '0', '0', HexDigit(c as int / 16), HexDigit(c as int % 16)]
    else [c]
  }

  function Escape(s: string): string
  {
    if s == [] then [] else EscapeChar(s[0]) + Escape(s[1..])
  }

  function Quote(s: string): string
  {
    ['"'] + Escape(s) + ['"']
  }

  function Elements(ks: seq<string>): string
  {
    if ks == [] then []
    else if |ks| == 1 then Quote(ks[0])
    else Quote(ks[0]) + [','] + Elements(ks[1..])
  }

  /** JSON.stringify(ks) for an array of strings. */
  function Encode(ks: seq<string>): string
  {
    ['['] + Elements(ks) + [']']
  }

  // ---------------------------------------------------------------------
  // JSON.parse restricted to arrays of strings; anything else is None,
  // which the registry treats like the exception JSON.parse would throw.

  predicate IsJsonSpace(c: char)
  {
    c == ' ' || c == '\t' || c == '\n' || c == '\r'
  }

  function SkipSpace(s: string): (r: string)
    ensures |r| <= |s|
  {
    if s != [] && IsJsonSpace(s[0]) then SkipSpace(s[1..]) else s
  }

  function HexValue(c: char): (v: int)
    ensures -1 <= v < 16
  {
    if '0' <= c <= '9' then c as int - '0' as int
    else if 'a' <= c <= 'f' then c as int - 'a' as int + 10
    else if 'A' <= c <= 'F' then c as int - 'A' as int + 10
    else -1
  }

  /**
   * The character an escape sequence stands for (`s` starts after the
   * backslash), and the text after it. A \u escape of a surrogate code unit
   * is not representable here and reads as None.
   */
  function Unescape(s: string): (r: Option<(char, string)>)
    ensures r.Some? ==> |r.value.1| < |s|
  {
    if s == [] then None
    else if s[0] == '"' || s[0] == '\\' || s[0] == '/' then Some((s[0], s[1..]))
    else if s[0] == 'b' then Some(('\U{8}', s[1..]))
    else if s[0] == 'f' then Some(('\U{C}', s[1..]))
    else if s[0] == 'n' then Some(('\n', s[1..]))
    else if s[0] == 'r' then Some(('\r', s[1..]))
    else if s[0] == 't' then Some(('\t', s[1..]))
    else if s[0] == 'u' && |s| >= 5 && HexValue(s[1]) >= 0 && HexValue(s[2]) >= 0
            && HexValue(s[3]) >= 0 && HexValue(s[4]) >= 0 then
      var code := ((HexValue(s[1]) * 16 + HexValue(s[2])) * 16 + HexValue(s[3])) * 16 + HexValue(s[4]);
      if 0xD800 <= code < 0xE000 then None else Some((code as char, s[5..]))
    else None
  }

  /** The body of a string literal (`s` starts after the opening quote): its text and what follows the closing quote. */
  function ParseBody(s: string): (r: Option<(string, string)>)
    ensures r.Some? ==> |r.value.1| < |s|
    decreases |s|
  {
    if s == [] then None
    else if s[0] == '"' then Some(([], s[1..]))
    else if s[0] == '\\' then
      match Unescape(s[1..])
      case None => None
      case Some((c, rest)) =>
        match ParseBody(rest)
        case None => None
        case Some((text, after)) => Some(([c] + text, after))
    else if s[0] < ' ' then None
    else
      match ParseBody(s[1..])
      case None => None
      case Some((text, after)) => Some(([s[0]] + text, after))
  }

  /** One or more comma-separated string literals up to the closing bracket. */
  function ParseElements(s: string): (r: Option<(seq<string>, string)>)
    ensures r.Some? ==> |r.value.1| < |s|
    decreases |s|, 1
  {
    if s == [] || s[0] != '"' then None
    else
      match ParseBody(s[1..])
      case None => None
      case Some(body) => ParseAfterElement(body.0, SkipSpace(body.1))
  }

  /** After element `k`: either the closing bracket or a comma and further elements. */
  function ParseAfterElement(k: string, t: string): (r: Option<(seq<string>, string)>)
    ensures r.Some? ==> |r.value.1| < |t|
    decreases |t|, 0
  {
    if t != [] && t[0] == ']' then Some(([k], t[1..]))
    else if t != [] && t[0] == ',' then Prepend(k, ParseElements(SkipSpace(t[1..])))
    else None
  }

  function Prepend(k: string, r: Option<(seq<string>, string)>): Option<(seq<string>, string)>
  {
    match r
    case None => None
    case Some(p) => Some(([k] + p.0, p.1))
  }

  /** JSON.parse of an array of strings. */
  function Decode(s: string): Option<seq<string>>
  {
    var t := SkipSpace(s);
    if t == [] || t[0] != '[' then None
    else
      var u := SkipSpace(t[1..]);
      var parsed: Option<(seq<string>, string)> := if u != [] && u[0] == ']' then Some(([], u[1..])) else ParseElements(u);
      match parsed
      case None => None
      case Some((ks, rest)) => if SkipSpace(rest) == [] then Some(ks) else None
  }

  // ---------------------------------------------------------------------
  // Round trip.

  lemma UnescapeOfEscape(c: char, rest: string)
    requires EscapeChar(c) != [c]
    ensures EscapeChar(c)[0] == '\\'
    ensures Unescape(EscapeChar(c)[1..] + rest) == Some((c, rest))
  {
    if c < ' ' && c != '\U{8}' && c != '\t' && c != '\n' && c != '\U{C}' && c != '\r' {
      UnescapeOfControl(c, rest);
    }
  }

  /** A control character without a short escape is written as \u00XY and read back from it. */
  lemma UnescapeOfControl(c: char, rest: string)
    requires c < ' ' && c != '\U{8}' && c != '\t' && c != '\n' && c != '\U{C}' && c != '\r'
    ensures EscapeChar(c)[0] == '\\'
    ensures Unescape(EscapeChar(c)[1..] + rest) == Some((c, rest))
  {
    var hi, lo := c as int / 16, c as int % 16;
    var u := ['u', '0', '0', HexDigit(hi), HexDigit(lo)];
    assert EscapeChar(c) == ['\\'] + u;
    HexDigitReadsBack(hi);
    HexDigitReadsBack(lo);
    assert HexValue('0') == 0 && hi * 16 + lo == c as int;
    FivePrefix(u, rest);
  }

  lemma FivePrefix(u: string, rest: string)
    requires |u| == 5
    ensures var e := u + rest;
      |e| >= 5 && e[0] == u[0] && e[1] == u[1] && e[2] == u[2] && e[3] == u[3] && e[4] == u[4] && e[5..] == rest
  {
    assert (u + rest)[5..] == rest;
  }

  lemma HexDigitReadsBack(d: nat)
    requires d < 16
    ensures HexValue(HexDigit(d)) == d
  {
  }

  lemma {:induction false} ParseBodyOfEscape(x: string, rest: string)
    ensures ParseBody(Escape(x) + ['"'] + rest) == Some((x, rest))
    decreases |x|
  {
    var s := Escape(x) + ['"'] + rest;
    if x == [] {
      assert s == ['"'] + rest;
    } else {
      var c := x[0];
      var tail := Escape(x[1..]) + ['"'] + rest;
      assert s == EscapeChar(c) + tail;
      ParseBodyOfEscape(x[1..], rest);
      ParseBodyOfChar(c, tail, x[1..], rest);
      assert [c] + x[1..] == x;
    }
  }

  /** One written character in front of a body that parses: its character goes in front of the text. */
  lemma ParseBodyOfChar(c: char, tail: string, text: string, rest: string)
    requires ParseBody(tail) == Some((text, rest))
    ensures ParseBody(EscapeChar(c) + tail) == Some(([c] + text, rest))
  {
    var s := EscapeChar(c) + tail;
    if EscapeChar(c) == [c] {
      assert s[0] == c && s[1..] == tail;
    } else {
      UnescapeOfEscape(c, tail);
      assert s[1..] == EscapeChar(c)[1..] + tail;
    }
  }

  /** What follows the first element's closing quote in an encoding. */
  function AfterFirst(ks: seq<string>, rest: string): string
    requires ks != []
  {
    if |ks| == 1 then [']'] + rest else [','] + Elements(ks[1..]) + [']'] + rest
  }

  lemma SplitFirst(ks: seq<string>, rest: string)
    requires ks != []
    ensures Elements(ks) + [']'] + rest == ['"'] + (Escape(ks[0]) + ['"'] + AfterFirst(ks, rest))
  {
    var q := Escape(ks[0]);
    if |ks| == 1 {
      assert Elements(ks) == ['"'] + q + ['"'];
      RegroupLast(['"'], q, ['"'], [']'], rest);
    } else {
      var e := Elements(ks[1..]);
      assert Elements(ks) == ['"'] + q + ['"'] + [','] + e;
      RegroupMore(['"'], q, ['"'], [','], e, [']'], rest);
    }
  }

  lemma RegroupLast<T>(a: seq<T>, b: seq<T>, c: seq<T>, d: seq<T>, e: seq<T>)
    ensures a + b + c + d + e == a + (b + c + (d + e))
  {
  }

  lemma RegroupMore<T>(a: seq<T>, b: seq<T>, c: seq<T>, d: seq<T>, e: seq<T>, f: seq<T>, g: seq<T>)
    ensures a + b + c + d + e + f + g == a + (b + c + (d + e + f + g))
  {
  }

  lemma ElementsStartWithQuote(ks: seq<string>, rest: string)
    requires ks != []
    ensures (Elements(ks) + [']'] + rest)[0] == '"'
  {
    SplitFirst(ks, rest);
  }

  /** ParseElements over an element written by Quote. */
  lemma ParseElementStep(k: string, tail: string)
    ensures ParseElements(['"'] + (Escape(k) + ['"'] + tail)) == ParseAfterElement(k, SkipSpace(tail))
  {
    var s := ['"'] + (Escape(k) + ['"'] + tail);
    assert s[1..] == Escape(k) + ['"'] + tail;
    ParseBodyOfEscape(k, tail);
  }

  lemma ParseLastElement(k: string, rest: string)
    ensures ParseElements(['"'] + (Escape(k) + ['"'] + ([']'] + rest))) == Some(([k], rest))
  {
    ParseElementStep(k, [']'] + rest);
    assert ([']'] + rest)[1..] == rest;
  }

  lemma ParseCommaElement(k: string, inner: string, more: seq<string>, rest: string)
    requires inner != [] && inner[0] == '"'
    requires ParseElements(inner) == Some((more, rest))
    ensures ParseElements(['"'] + (Escape(k) + ['"'] + ([','] + inner))) == Some(([k] + more, rest))
  {
    var t := [','] + inner;
    ParseElementStep(k, t);
    assert SkipSpace(t) == t;
    assert t[1..] == inner;
    assert SkipSpace(inner) == inner;
    assert ParseAfterElement(k, t) == Prepend(k, ParseElements(inner));
  }

  lemma ParseSingleElement(ks: seq<string>, rest: string)
    requires |ks| == 1
    ensures ParseElements(Elements(ks) + [']'] + rest) == Some((ks, rest))
  {
    SplitFirst(ks, rest);
    ParseLastElement(ks[0], rest);
    assert [ks[0]] == ks;
  }

  lemma ParseFurtherElements(ks: seq<string>, rest: string)
    requires |ks| >= 2
    requires ParseElements(Elements(ks[1..]) + [']'] + rest) == Some((ks[1..], rest))
    ensures ParseElements(Elements(ks) + [']'] + rest) == Some((ks, rest))
  {
    var inner := Elements(ks[1..]) + [']'] + rest;
    FurtherLayout(ks, rest);
    ParseCommaElement(ks[0], inner, ks[1..], rest);
    assert [ks[0]] + ks[1..] == ks;
  }

  /** An encoding of two or more keys: the first element, a comma, then the encoding of the others. */
  lemma FurtherLayout(ks: seq<string>, rest: string)
    requires |ks| >= 2
    ensures (Elements(ks[1..]) + [']'] + rest)[0] == '"'
    ensures Elements(ks) + [']'] + rest == ['"'] + (Escape(ks[0]) + ['"'] + ([','] + (Elements(ks[1..]) + [']'] + rest)))
  {
    var q, e := Escape(ks[0]), Elements(ks[1..]);
    assert Elements(ks) == ['"'] + q + ['"'] + [','] + e;
    Regroup(['"'], q, ['"'], [','], e, [']'], rest);
    ElementsStartWithQuote(ks[1..], rest);
  }

  lemma Regroup<T>(a: seq<T>, b: seq<T>, c: seq<T>, d: seq<T>, e: seq<T>, f: seq<T>, g: seq<T>)
    ensures a + b + c + d + e + f + g == a + (b + c + (d + (e + f + g)))
  {
  }

  lemma {:induction false} ParseElementsOfEncoding(ks: seq<string>, rest: string)
    requires ks != []
    ensures ParseElements(Elements(ks) + [']'] + rest) == Some((ks, rest))
    decreases |ks|
  {
    if |ks| == 1 {
      ParseSingleElement(ks, rest);
    } else {
      ParseElementsOfEncoding(ks[1..], rest);
      ParseFurtherElements(ks, rest);
    }
  }

  /** What saveActiveTimers writes, initTimerManager reads back unchanged. */
  lemma DecodeEncode(ks: seq<string>)
    ensures Decode(Encode(ks)) == Some(ks)
  {
    if ks == [] {
      var s := Encode(ks);
      assert SkipSpace(s) == s;
      assert s[1..] == [']'];
    } else {
      DecodeListed(ks);
    }
  }

  lemma DecodeListed(ks: seq<string>)
    requires ks != []
    ensures Decode(Encode(ks)) == Some(ks)
  {
    var s, u := Encode(ks), Elements(ks) + [']'] + [];
    assert s == ['['] + u;
    ElementsStartWithQuote(ks, []);
    ParseElementsOfEncoding(ks, []);
    ListBody(s, u, ks);
  }

  /** Decode of '[' followed by a parsed element list with nothing after it. */
  lemma ListBody(s: string, u: string, ks: seq<string>)
    requires s == ['['] + u && u != [] && u[0] == '"' && ParseElements(u) == Some((ks, []))
    ensures Decode(s) == Some(ks)
  {
    assert SkipSpace(s) == s;
    assert s[1..] == u;
    assert SkipSpace(u) == u;
  }
}

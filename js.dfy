// JavaScript value semantics shared by every module of the model: values
// that may be undefined, thrown errors, truthiness of strings, the decimal
// rendering of integral Numbers and the global parseInt.
module Js {

  datatype Option<T> = None | Some(value: T)

  /** A computation that either yields a value or throws (the string names the JS error). */
  datatype Result<T> = Ok(value: T) | Throws(error: string)

  /** A possibly-undefined string is truthy when it is present and non-empty. */
  predicate Truthy(s: Option<string>)
  {
    s.Some? && s.value != ""
  }

  /** `a || b` on possibly-undefined strings. */
  function Or(a: Option<string>, b: Option<string>): (r: Option<string>)
    ensures Truthy(r) <==> Truthy(a) || Truthy(b)
    ensures Truthy(a) ==> r == a
  {
    if Truthy(a) then a else b
  }

  predicate StartsWith(s: string, prefix: string)
  {
    |prefix| <= |s| && s[..|prefix|] == prefix
  }

  // ---------------------------------------------------------------------
  // Number.prototype.toString on integral values (below 1e21 JavaScript
  // prints every integer in plain decimal).

  predicate IsDigit(c: char)
  {
    '0' <= c <= '9'
  }

  function DigitChar(d: nat): (c: char)
    requires d < 10
    ensures IsDigit(c) && c as int - '0' as int == d
  {
    ('0' as int + d) as char
  }

  function NatToString(n: nat): (s: string)
    ensures |s| >= 1
    ensures forall i :: 0 <= i < |s| ==> IsDigit(s[i])
    decreases n
  {
    if n < 10 then [DigitChar(n)] else NatToString(n / 10) + [DigitChar(n % 10)]
  }

  function IntToString(i: int): (s: string)
    ensures |s| >= 1
    ensures (s[0] == '-') == (i < 0)
  {
    if i < 0 then "-" + NatToString(-i) else NatToString(i)
  }

  /** The regular-expression class \w. */
  predicate IsWordChar(c: char)
  {
    'a' <= c <= 'z' || 'A' <= c <= 'Z' || '0' <= c <= '9' || c == '_'
  }

  // ---------------------------------------------------------------------
  // parseInt(string, radix), section 19.2.5 of ECMA-262.

  /** StrWhiteSpaceChar: WhiteSpace or LineTerminator. */
  predicate IsJsSpace(c: char)
  {
    c == ' ' || c == '\t' || c == '\n' || c == '\r' || c == '\U{B}' || c == '\U{C}'
    || c == '\U{A0}' || c == '\U{FEFF}' || c == '\U{1680}' || ('\U{2000}' <= c <= '\U{200A}')
    || c == '\U{2028}' || c == '\U{2029}' || c == '\U{202F}' || c == '\U{205F}' || c == '\U{3000}'
  }

  function TrimStart(s: string): (r: string)
    ensures |r| <= |s|
    ensures r != [] ==> !IsJsSpace(r[0])
  {
    if s != [] && IsJsSpace(s[0]) then TrimStart(s[1..]) else s
  }

  /** The value of a digit in radix up to 36; 36 for anything that is not a digit. */
  function DigitValue(c: char): (v: nat)
    ensures v <= 36
  {
    if '0' <= c <= '9' then c as int - '0' as int
    else if 'a' <= c <= 'z' then c as int - 'a' as int + 10
    else if 'A' <= c <= 'Z' then c as int - 'A' as int + 10
    else 36
  }

  /** Length of the longest prefix of `s` made of digits of `radix`. */
  function DigitRun(s: string, radix: nat): (n: nat)
    ensures n <= |s|
    ensures forall i :: 0 <= i < n ==> DigitValue(s[i]) < radix
    ensures n < |s| ==> DigitValue(s[n]) >= radix
  {
    if s != [] && DigitValue(s[0]) < radix then 1 + DigitRun(s[1..], radix) else 0
  }

  /** Positional value of a digit string, most significant digit first. */
  function DigitsValue(ds: string, radix: nat): nat
  {
    if ds == [] then 0 else DigitsValue(ds[..|ds| - 1], radix) * radix + DigitValue(ds[|ds| - 1])
  }

  /**
   * The unsigned part of parseInt: a "0x"/"0X" prefix switches to base 16
   * unless the radix is given and is not 16 (radix 0 stands for an absent
   * radix, read as 10), then the longest run of valid digits is read; None
   * when there is no digit.
   */
  function ParseMagnitude(u: string, radix: nat): (r: Option<nat>)
    requires radix == 0 || 2 <= radix <= 36
  {
    var hex := (radix == 0 || radix == 16) && |u| >= 2 && u[0] == '0' && (u[1] == 'x' || u[1] == 'X');
    var base := if hex then 16 else if radix == 0 then 10 else radix;
    var v := if hex then u[2..] else u;
    var n := DigitRun(v, base);
    if n == 0 then None else Some(DigitsValue(v[..n], base))
  }

  function Negated(m: Option<nat>): Option<int>
  {
    match m
    case None => None
    case Some(v) => Some(-(v as int))
  }

  function Unsigned(m: Option<nat>): Option<int>
  {
    match m
    case None => None
    case Some(v) => Some(v as int)
  }

  /** parseInt after the white space: one optional sign, then the magnitude. */
  function ParseSigned(t: string, radix: nat): Option<int>
    requires radix == 0 || 2 <= radix <= 36
  {
    if t != [] && t[0] == '-' then Negated(ParseMagnitude(t[1..], radix))
    else if t != [] && t[0] == '+' then Unsigned(ParseMagnitude(t[1..], radix))
    else Unsigned(ParseMagnitude(t, radix))
  }

  /** parseInt(s, radix), None standing for NaN. */
  function ParseInt(s: string, radix: nat): Option<int>
    requires radix == 0 || 2 <= radix <= 36
  {
    ParseSigned(TrimStart(s), radix)
  }

  lemma {:induction false} DecimalValue(n: nat)
    ensures DigitsValue(NatToString(n), 10) == n
    decreases n
  {
    if n >= 10 {
      var s := NatToString(n);
      assert s[..|s| - 1] == NatToString(n / 10);
      DecimalValue(n / 10);
    }
  }

  predicate AllDigits(d: string)
  {
    forall i :: 0 <= i < |d| ==> IsDigit(d[i])
  }

  lemma AllDigitsRun(d: string)
    requires AllDigits(d)
    ensures DigitRun(d, 10) == |d|
  {
    assert forall i :: 0 <= i < |d| ==> DigitValue(d[i]) < 10;
  }

  /** An all-digit string is read entirely in base 10, whether the radix is absent or 10. */
  lemma DigitsMagnitude(d: string, radix: nat)
    requires radix == 0 || radix == 10
    requires d != [] && AllDigits(d)
    ensures ParseMagnitude(d, radix) == Some(DigitsValue(d, 10))
  {
    AllDigitsRun(d);
    assert d[..|d|] == d;
    assert |d| >= 2 ==> IsDigit(d[1]);
  }

  lemma DigitsParse(d: string, radix: nat)
    requires radix == 0 || radix == 10
    requires d != [] && AllDigits(d)
    ensures ParseInt(d, radix) == Some(DigitsValue(d, 10) as int)
  {
    DigitsMagnitude(d, radix);
    assert !IsJsSpace(d[0]);
    assert TrimStart(d) == d;
  }

  lemma MinusSigned(m: string, d: string, radix: nat, v: nat)
    requires radix == 0 || radix == 10
    requires m == ['-'] + d && ParseMagnitude(d, radix) == Some(v)
    ensures ParseInt(m, radix) == Some(-(v as int))
  {
    assert m[0] == '-' && m[1..] == d;
    assert !IsJsSpace(m[0]);
    assert TrimStart(m) == m;
  }

  /** Reading back what toString wrote, with or without radix 10, gives the number. */
  lemma ParseIntOfIntToString(i: int)
    ensures ParseInt(IntToString(i), 0) == Some(i)
    ensures ParseInt(IntToString(i), 10) == Some(i)
  {
    var m: nat := if i < 0 then -i else i;
    DecimalValue(m);
    if i < 0 {
      var d := NatToString(m);
      DigitsMagnitude(d, 0);
      DigitsMagnitude(d, 10);
      MinusSigned(IntToString(i), d, 0, m);
      MinusSigned(IntToString(i), d, 10, m);
    } else {
      DigitsParse(NatToString(m), 0);
      DigitsParse(NatToString(m), 10);
    }
  }

  // ---------------------------------------------------------------------
  // String.prototype.split with a one-character separator, and join.

  /** `s.split(sep)`: the pieces between separators, at least one (possibly empty). */
  function Split(s: string, sep: char): (parts: seq<string>)
    ensures |parts| >= 1
    decreases |s|
  {
    if |s| == 0 then [""]
    else
      var rest := Split(s[1..], sep);
      if s[0] == sep then [""] + rest else [[s[0]] + rest[0]] + rest[1..]
  }

  /** `parts.join(sep)`. */
  function Join(parts: seq<string>, sep: char): string
    requires |parts| >= 1
  {
    if |parts| == 1 then parts[0] else parts[0] + [sep] + Join(parts[1..], sep)
  }

  predicate Free(s: string, sep: char)
  {
    forall i :: 0 <= i < |s| ==> s[i] != sep
  }

  /** Splitting loses nothing: the pieces hold no separator and join back to the string. */
  lemma {:induction false} JoinSplit(s: string, sep: char)
    ensures Join(Split(s, sep), sep) == s
    ensures forall k :: 0 <= k < |Split(s, sep)| ==> Free(Split(s, sep)[k], sep)
    decreases |s|
  {
    if |s| > 0 {
      JoinSplit(s[1..], sep);
      var rest := Split(s[1..], sep);
      if s[0] == sep {
        assert Split(s, sep)[1..] == rest;
      } else {
        var parts := Split(s, sep);
        if |rest| > 1 {
          assert parts[1..] == rest[1..];
          assert Join(rest, sep) == rest[0] + [sep] + Join(rest[1..], sep);
        }
        assert s == [s[0]] + s[1..];
        forall k | 0 <= k < |parts|
          ensures Free(parts[k], sep)
        {
          if k > 0 {
            assert parts[k] == rest[k];
          }
        }
      }
    }
  }

  /** Pieces without the separator are what splitting their join gives back. */
  lemma {:induction false} SplitJoin(parts: seq<string>, sep: char)
    requires |parts| >= 1
    requires forall k :: 0 <= k < |parts| ==> Free(parts[k], sep)
    ensures Split(Join(parts, sep), sep) == parts
    decreases |parts|, |parts[0]|
  {
    if |parts| == 1 {
      SplitFree(parts[0], sep);
    } else if parts[0] == [] {
      SplitJoin(parts[1..], sep);
      SplitJoinEmptyFirst(parts, sep);
    } else {
      var tail := JoinFirstChar(parts, sep);
      SplitJoin(tail, sep);
      SplitJoinCharFirst(parts, tail, sep);
    }
  }

  /** An empty first piece is split off by the separator the join puts after it. */
  lemma SplitJoinEmptyFirst(parts: seq<string>, sep: char)
    requires |parts| >= 2 && parts[0] == []
    requires Split(Join(parts[1..], sep), sep) == parts[1..]
    ensures Split(Join(parts, sep), sep) == parts
  {
    assert Join(parts, sep) == [sep] + Join(parts[1..], sep);
    assert Join(parts, sep)[1..] == Join(parts[1..], sep);
    assert parts == [""] + parts[1..];
  }

  /** A first piece that starts with a character other than the separator keeps it. */
  lemma SplitJoinCharFirst(parts: seq<string>, tail: seq<string>, sep: char)
    requires |parts| >= 2 && parts[0] != [] && parts[0][0] != sep
    requires tail == [parts[0][1..]] + parts[1..] && tail[1..] == parts[1..]
    requires Join(parts, sep) == [parts[0][0]] + Join(tail, sep)
    requires Split(Join(tail, sep), sep) == tail
    ensures Split(Join(parts, sep), sep) == parts
  {
    SplitCons(parts[0][0], Join(tail, sep), sep);
    assert parts[0] == [parts[0][0]] + tail[0];
    assert parts == [parts[0]] + tail[1..];
  }

  /** The join of pieces whose first is not empty is that piece's first character, then the join with it removed. */
  lemma JoinFirstChar(parts: seq<string>, sep: char) returns (tail: seq<string>)
    requires |parts| >= 2 && parts[0] != []
    requires forall k :: 0 <= k < |parts| ==> Free(parts[k], sep)
    ensures tail == [parts[0][1..]] + parts[1..] && tail[1..] == parts[1..]
    ensures forall k :: 0 <= k < |tail| ==> Free(tail[k], sep)
    ensures parts[0][0] != sep
    ensures Join(parts, sep) == [parts[0][0]] + Join(tail, sep)
  {
    tail := [parts[0][1..]] + parts[1..];
    assert Free(tail[0], sep);
    forall k | 0 <= k < |tail|
      ensures Free(tail[k], sep)
    {
      if k > 0 {
        assert tail[k] == parts[k];
      }
    }
    assert tail[1..] == parts[1..];
  }

  /** A first character that is not the separator begins the first piece. */
  lemma SplitCons(c: char, rest: string, sep: char)
    requires c != sep
    ensures Split([c] + rest, sep) == [[c] + Split(rest, sep)[0]] + Split(rest, sep)[1..]
  {
    assert ([c] + rest)[1..] == rest;
  }

  lemma {:induction false} SplitFree(s: string, sep: char)
    requires Free(s, sep)
    ensures Split(s, sep) == [s]
    decreases |s|
  {
    if |s| > 0 {
      SplitFree(s[1..], sep);
      assert s == [s[0]] + s[1..];
    }
  }

  /** The first piece of `x + sep + y` is the first piece of `x`: split stops at the first separator. */
  lemma {:induction false} SplitHead(x: string, y: string, sep: char)
    ensures Split(x + [sep] + y, sep)[0] == Split(x, sep)[0]
    decreases |x|
  {
    var s := x + [sep] + y;
    if |x| > 0 {
      assert s[1..] == x[1..] + [sep] + y;
      SplitHead(x[1..], y, sep);
    } else {
      assert s[0] == sep;
    }
  }

  /** Joining one more piece adds the separator and the piece at the end. */
  lemma {:induction false} JoinSnoc(parts: seq<string>, last: string, sep: char)
    requires |parts| >= 1
    ensures Join(parts + [last], sep) == Join(parts, sep) + [sep] + last
    decreases |parts|
  {
    if |parts| > 1 {
      assert (parts + [last])[1..] == parts[1..] + [last];
      JoinSnoc(parts[1..], last, sep);
    }
  }
}

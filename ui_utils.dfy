// Formatting helpers of ui-utils.js: hexToRgb, formatNumber,
// formatGiftPrice and the set-up decision of animateBalance.
module UiUtils {
  import opened Js

  // ---------------------------------------------------------------------
  // hexToRgb.

  /** `s.replace(c, '')` with a string pattern: only the first occurrence goes. */
  function RemoveFirst(s: string, c: char): (r: string)
    ensures c !in s ==> r == s
    ensures c in s ==> |r| == |s| - 1
  {
    if s == [] then []
    else if s[0] == c then s[1..]
    else [s[0]] + RemoveFirst(s[1..], c)
  }

  /** `s.split('').map(h => h + h).join('')`: every character twice. */
  function Doubled(s: string): (r: string)
    ensures |r| == 2 * |s|
    ensures forall i :: 0 <= i < |s| ==> r[2 * i] == s[i] && r[2 * i + 1] == s[i]
  {
    if s == [] then [] else [s[0], s[0]] + Doubled(s[1..])
  }

  /**
   * The three channels of a six-character code, "r, g, b"; None when one is
   * NaN. Each channel is parsed from its two characters (substring(0, 2),
   * substring(2, 4) and substring(4, 6)).
   */
  function Decode(full: string): Option<string>
    requires |full| == 6
  {
    var r, g, b := ParseInt([full[0], full[1]], 16), ParseInt([full[2], full[3]], 16), ParseInt([full[4], full[5]], 16);
    if r.None? || g.None? || b.None? then None
    else Some(IntToString(r.value) + ", " + IntToString(g.value) + ", " + IntToString(b.value))
  }

  /**
   * hexToRgb: null (None) for a falsy input, for a code that is not 3 or 6
   * characters long once its first '#' is removed, or when a channel does
   * not parse; otherwise "r, g, b".
   */
  function HexToRgb(hex: Option<string>): Option<string>
  {
    if !Truthy(hex) then None
    else
      var h := RemoveFirst(hex.value, '#');
      if |h| != 6 && |h| != 3 then None
      else Decode(if |h| == 3 then Doubled(h) else h)
  }

  lemma HashDropped(h: string)
    requires '#' !in h
    ensures RemoveFirst("#" + h, '#') == h && RemoveFirst(h, '#') == h
  {
    assert ("#" + h)[1..] == h;
  }

  predicate IsHexDigit(c: char)
  {
    DigitValue(c) < 16
  }

  /** The value of two hex digits: 16 times the first plus the second. */
  function ByteValue(c0: char, c1: char): (v: nat)
    requires IsHexDigit(c0) && IsHexDigit(c1)
    ensures v <= 255
  {
    16 * DigitValue(c0) + DigitValue(c1)
  }

  lemma HexPair(u: string)
    requires |u| == 2 && IsHexDigit(u[0]) && IsHexDigit(u[1])
    ensures ParseInt(u, 16) == Some(ByteValue(u[0], u[1]) as int)
  {
    assert !IsJsSpace(u[0]);
    assert TrimStart(u) == u;
    assert DigitRun(u[1..], 16) == 1;
    assert DigitRun(u, 16) == 2;
    assert u[..2] == u;
    assert u[..1][..0] == [];
    assert DigitsValue(u[..1], 16) == DigitValue(u[0]);
  }

  /** Six hex digits give the three byte values 16*hi + lo, each in 0..255. */
  lemma DecodeDigits(h: string)
    requires |h| == 6 && forall i :: 0 <= i < 6 ==> IsHexDigit(h[i])
    ensures Decode(h) == Some(IntToString(ByteValue(h[0], h[1]) as int) + ", "
      + IntToString(ByteValue(h[2], h[3]) as int) + ", " + IntToString(ByteValue(h[4], h[5]) as int))
  {
    ChannelOf([h[0], h[1]], h[0], h[1]);
    ChannelOf([h[2], h[3]], h[2], h[3]);
    ChannelOf([h[4], h[5]], h[4], h[5]);
    DecodeChannels(h, ByteValue(h[0], h[1]) as int, ByteValue(h[2], h[3]) as int, ByteValue(h[4], h[5]) as int);
  }

  /**
   * Six hex digits, with or without '#', give the three byte values
   * 16*hi + lo, each in 0..255.
   */
  lemma SixDigitsDecoded(h: string)
    requires |h| == 6 && forall i :: 0 <= i < 6 ==> IsHexDigit(h[i])
    ensures HexToRgb(Some(h)) == HexToRgb(Some("#" + h))
    ensures HexToRgb(Some(h)) == Some(IntToString(ByteValue(h[0], h[1]) as int) + ", "
      + IntToString(ByteValue(h[2], h[3]) as int) + ", " + IntToString(ByteValue(h[4], h[5]) as int))
  {
    assert '#' !in h by {
      assert DigitValue('#') == 36;
    }
    HashDropped(h);
    DecodeDigits(h);
  }

  /** A three-character code reads as its six-character expansion: "#abc" is "#aabbcc". */
  lemma ShortFormExpands(h: string)
    requires |h| == 3 && '#' !in h
    ensures '#' !in Doubled(h)
    ensures HexToRgb(Some(h)) == HexToRgb(Some(Doubled(h)))
    ensures HexToRgb(Some("#" + h)) == HexToRgb(Some(h))
  {
    DoubledChars(h, '#');
    ShortCode(h);
    FullCode(Doubled(h));
  }

  /** Doubling a code adds no character it did not have. */
  lemma {:induction false} DoubledChars(s: string, c: char)
    requires c !in s
    ensures c !in Doubled(s)
  {
    if s != [] {
      DoubledChars(s[1..], c);
    }
  }

  /** Without a '#', a three-character code is decoded doubled. */
  lemma ShortCode(h: string)
    requires '#' !in h && |h| == 3
    ensures HexToRgb(Some(h)) == Decode(Doubled(h))
    ensures HexToRgb(Some("#" + h)) == HexToRgb(Some(h))
  {
    HashDropped(h);
  }

  /** Without a '#', a six-character code goes straight to Decode. */
  lemma FullCode(h: string)
    requires '#' !in h && |h| == 6
    ensures HexToRgb(Some(h)) == Decode(h)
    ensures HexToRgb(Some("#" + h)) == HexToRgb(Some(h))
  {
    HashDropped(h);
  }

  /** Codes of any other length are refused, before anything is parsed. */
  lemma WrongLengthRefused(hex: string)
    requires '#' !in hex && |hex| != 3 && |hex| != 6
    ensures HexToRgb(Some(hex)) == None && HexToRgb(Some("#" + hex)) == None
  {
    HashDropped(hex);
  }

  /** parseInt("-h", 16) for a hex digit h: the negated digit. */
  lemma MinusPair(u: string)
    requires |u| == 2 && u[0] == '-' && IsHexDigit(u[1])
    ensures ParseInt(u, 16) == Some(-(DigitValue(u[1]) as int))
  {
    assert TrimStart(u) == u;
    var v := u[1..];
    assert v[0] == u[1];
    assert DigitRun(v[1..], 16) == 0;
    assert DigitRun(v, 16) == 1;
    assert v[..1] == v && v[..0] == [];
    assert DigitsValue(v, 16) == DigitValue(u[1]);
    assert ParseMagnitude(v, 16) == Some(DigitValue(u[1]));
    assert ParseSigned(u, 16) == Negated(ParseMagnitude(v, 16));
  }

  /** A channel starting with a character that is neither a hex digit, a sign nor white space is NaN. */
  lemma BadPair(u: string)
    requires |u| == 2 && !IsHexDigit(u[0]) && u[0] != '-' && u[0] != '+' && !IsJsSpace(u[0])
    ensures ParseInt(u, 16) == None
  {
    assert TrimStart(u) == u;
    assert DigitRun(u, 16) == 0;
  }

  lemma DecodeSigned(h: string)
    requires |h| == 6 && h[0] == '-' && forall i :: 1 <= i < 6 ==> IsHexDigit(h[i])
    ensures Decode(h) == Some(IntToString(MinusDigit(h[1])) + ", "
      + IntToString(ByteValue(h[2], h[3]) as int) + ", " + IntToString(ByteValue(h[4], h[5]) as int))
  {
    MinusChannel([h[0], h[1]], h[1]);
    ChannelOf([h[2], h[3]], h[2], h[3]);
    ChannelOf([h[4], h[5]], h[4], h[5]);
    DecodeChannels(h, MinusDigit(h[1]), ByteValue(h[2], h[3]) as int, ByteValue(h[4], h[5]) as int);
  }

  /** parseInt("-c", 16) for a hex digit c. */
  function MinusDigit(c: char): int
  {
    -(DigitValue(c) as int)
  }

  /** The channel of two hex digits. */
  lemma ChannelOf(u: string, hi: char, lo: char)
    requires u == [hi, lo] && IsHexDigit(hi) && IsHexDigit(lo)
    ensures ParseInt(u, 16) == Some(ByteValue(hi, lo) as int)
  {
    HexPair(u);
  }

  /** The channel "-h": the negated digit. */
  lemma MinusChannel(u: string, lo: char)
    requires u == ['-', lo] && IsHexDigit(lo)
    ensures ParseInt(u, 16) == Some(MinusDigit(lo))
  {
    MinusPair(u);
  }

  /** Decode writes the three channel values parseInt gives. */
  lemma DecodeChannels(h: string, r: int, g: int, b: int)
    requires |h| == 6
    requires ParseInt([h[0], h[1]], 16) == Some(r) && ParseInt([h[2], h[3]], 16) == Some(g)
    requires ParseInt([h[4], h[5]], 16) == Some(b)
    ensures Decode(h) == Some(IntToString(r) + ", " + IntToString(g) + ", " + IntToString(b))
  {
  }

  /**
   * parseInt reads a sign inside a channel, so a code such as "#-f0000"
   * is accepted and gives a negative value ("-15, 0, 0").
   */
  lemma SignedChannelAccepted(h: string)
    requires |h| == 6 && h[0] == '-' && forall i :: 1 <= i < 6 ==> IsHexDigit(h[i])
    ensures HexToRgb(Some("#" + h)) == Some(IntToString(MinusDigit(h[1])) + ", "
      + IntToString(ByteValue(h[2], h[3]) as int) + ", " + IntToString(ByteValue(h[4], h[5]) as int))
  {
    assert '#' !in h by {
      assert DigitValue('#') == 36;
    }
    HashDropped(h);
    DecodeSigned(h);
  }

  lemma DecodeStray(h: string, k: nat)
    requires |h| == 6 && k < 3
    requires !IsHexDigit(h[2 * k]) && h[2 * k] != '-' && h[2 * k] != '+' && !IsJsSpace(h[2 * k])
    ensures Decode(h) == None
  {
    if k == 0 {
      BadPair([h[0], h[1]]);
    } else if k == 1 {
      BadPair([h[2], h[3]]);
    } else {
      BadPair([h[4], h[5]]);
    }
  }

  /** A channel starting with a letter beyond 'f' (or any other stray character) makes the whole code null. */
  lemma StrayCharacterRefused(h: string, k: nat)
    requires |h| == 6 && '#' !in h && k < 3
    requires !IsHexDigit(h[2 * k]) && h[2 * k] != '-' && h[2 * k] != '+' && !IsJsSpace(h[2 * k])
    ensures HexToRgb(Some(h)) == None && HexToRgb(Some("#" + h)) == None
  {
    HashDropped(h);
    DecodeStray(h, k);
  }

  // ---------------------------------------------------------------------
  // formatNumber: toString, then a space at every /\B(?=(\d{3})+(?!\d))/.

  /** `(\d{3})+(?!\d)` matches at the start of t. */
  predicate ThreeGroupsAhead(t: string)
  {
    exists k | 1 <= k <= |t| / 3 :: AllDigits(t[..3 * k]) && (3 * k == |t| || !IsDigit(t[3 * k]))
  }

  /** Position p of s is not a word boundary and a run of whole digit triples follows it. */
  predicate SpaceBefore(s: string, p: nat)
    requires p < |s|
  {
    p > 0 && IsWordChar(s[p - 1]) == IsWordChar(s[p]) && ThreeGroupsAhead(s[p..])
  }

  /** The characters of s from p on, with a space put before every matching position. */
  function SpacedFrom(s: string, p: nat): string
    decreases |s| - p
  {
    if p >= |s| then [] else (if SpaceBefore(s, p) then " " else "") + [s[p]] + SpacedFrom(s, p + 1)
  }

  /** formatNumber on an integer. */
  function FormatNumber(n: int): string
  {
    SpacedFrom(IntToString(n), 0)
  }

  /** formatGiftPrice on an integer: toString without spaces. */
  function FormatGiftPrice(n: int): (r: string)
    ensures ParseInt(r, 10) == Some(n)
  {
    ParseIntOfIntToString(n);
    IntToString(n)
  }

  /** The digit groups of a digit string, counted from the right. */
  function Groups(d: string): (gs: seq<string>)
    ensures |gs| >= 1
    decreases |d|
  {
    if |d| <= 3 then [d] else Groups(d[..|d| - 3]) + [d[|d| - 3..]]
  }

  /** The pieces written one after another. */
  function Concat(parts: seq<string>): string
  {
    if parts == [] then [] else Concat(parts[..|parts| - 1]) + parts[|parts| - 1]
  }

  /** The string without its spaces. */
  function Unspaced(s: string): (r: string)
    ensures |r| <= |s|
  {
    if s == [] then [] else (if s[0] == ' ' then [] else [s[0]]) + Unspaced(s[1..])
  }

  /**
   * The groups of a nonempty digit string are digit strings, of which the
   * first has one to three digits and every other exactly three, and they
   * spell the string.
   */
  lemma {:induction false} GroupsShape(d: string)
    requires d != [] && AllDigits(d)
    ensures var gs := Groups(d);
      Concat(gs) == d && 1 <= |gs[0]| <= 3 && (forall k :: 1 <= k < |gs| ==> |gs[k]| == 3)
      && forall k :: 0 <= k < |gs| ==> AllDigits(gs[k])
    decreases |d|
  {
    var gs := Groups(d);
    if |d| <= 3 {
      assert gs == [d];
      assert Concat(gs) == Concat([]) + d;
    } else {
      var e := d[..|d| - 3];
      GroupsShape(e);
      assert gs == Groups(e) + [d[|d| - 3..]];
      assert e + d[|d| - 3..] == d;
      LastGroupAdded(Groups(e), d[|d| - 3..]);
    }
  }

  /** One more group of three digits after well-shaped groups keeps their shape. */
  lemma LastGroupAdded(gs: seq<string>, t: string)
    requires |gs| >= 1 && |t| == 3 && AllDigits(t)
    requires 1 <= |gs[0]| <= 3 && (forall k :: 1 <= k < |gs| ==> |gs[k]| == 3)
    requires forall k :: 0 <= k < |gs| ==> AllDigits(gs[k])
    ensures var hs := gs + [t];
      Concat(hs) == Concat(gs) + t && 1 <= |hs[0]| <= 3 && (forall k :: 1 <= k < |hs| ==> |hs[k]| == 3)
      && forall k :: 0 <= k < |hs| ==> AllDigits(hs[k])
  {
    assert (gs + [t])[..|gs|] == gs;
  }

  /** Grouping from the left: a space before digit i when a multiple of three digits is left. */
  function GroupFrom(d: string, i: nat): string
    decreases |d| - i
  {
    if i >= |d| then [] else (if i > 0 && (|d| - i) % 3 == 0 then " " else "") + [d[i]] + GroupFrom(d, i + 1)
  }

  /** On the digits after an optional minus sign, the regular expression's positions are those of GroupFrom. */
  lemma {:induction false} SpacedDigits(sign: string, d: string, p: nat, i: nat)
    requires sign == "" || sign == "-"
    requires AllDigits(d) && i == p - |sign| && |sign| <= p
    ensures SpacedFrom(sign + d, p) == GroupFrom(d, i)
    decreases |sign| + |d| - p
  {
    if p < |sign + d| {
      SpaceBeforeDigit(sign, d, p, i);
      SpacedDigits(sign, d, p + 1, i + 1);
      GroupFromNext(d, i, i + 1);
      SpacedFromNext(sign + d, p);
    }
  }

  lemma SpacedFromNext(s: string, p: nat)
    requires p < |s|
    ensures SpacedFrom(s, p) == (if SpaceBefore(s, p) then " " else "") + [s[p]] + SpacedFrom(s, p + 1)
  {
  }

  /** One step of GroupFrom, with the next position given as j. */
  lemma GroupFromNext(d: string, i: nat, j: nat)
    requires i < |d| && j == i + 1
    ensures GroupFrom(d, i) == (if i > 0 && (|d| - i) % 3 == 0 then " " else "") + [d[i]] + GroupFrom(d, j)
  {
  }

  /** At digit i of the digits after the sign, a space goes in when i > 0 and a multiple of three digits is left. */
  lemma SpaceBeforeDigit(sign: string, d: string, p: nat, i: nat)
    requires sign == "" || sign == "-"
    requires AllDigits(d) && i == p - |sign| && |sign| <= p < |sign + d|
    ensures (sign + d)[p] == d[i]
    ensures SpaceBefore(sign + d, p) <==> i > 0 && (|d| - i) % 3 == 0
  {
    var s := sign + d;
    assert s[p..] == d[i..];
    ThreeGroupsDigits(d[i..]);
    if i > 0 {
      assert s[p - 1] == d[i - 1];
    } else if sign == "-" {
      assert s[p - 1] == '-';
    }
  }

  /** Within a digit string, `(\d{3})+(?!\d)` matches exactly where a positive multiple of three digits is left. */
  lemma ThreeGroupsDigits(t: string)
    requires AllDigits(t)
    ensures ThreeGroupsAhead(t) <==> |t| > 0 && |t| % 3 == 0
  {
    if |t| > 0 && |t| % 3 == 0 {
      assert t[..3 * (|t| / 3)] == t;
    }
  }

  /** Fewer than three digits after the first take no space. */
  lemma {:induction false} GroupFromShort(d: string, i: nat)
    requires 0 < i <= |d| && |d| - i < 3
    ensures GroupFrom(d, i) == d[i..]
    decreases |d| - i
  {
    if i < |d| {
      GroupFromShort(d, i + 1);
      assert (|d| - i) % 3 != 0;
      assert d[i..] == [d[i]] + d[i + 1..];
    }
  }

  /** The last three digits of a longer string are written after a space. */
  lemma GroupFromLastThree(d: string)
    requires |d| > 3
    ensures GroupFrom(d, |d| - 3) == " " + d[|d| - 3..]
  {
    var i := |d| - 3;
    assert 0 < i && |d| - i == 3;
    GroupFromShort(d, i + 1);
    assert d[i..] == [d[i]] + d[i + 1..];
  }

  /** Grouping d from position i equals grouping d without its last three digits, then a space and those three. */
  lemma {:induction false} GroupFromSplit(d: string, i: nat)
    requires |d| > 3 && i <= |d| - 3
    ensures GroupFrom(d, i) == GroupFrom(d[..|d| - 3], i) + " " + d[|d| - 3..]
    decreases |d| - i
  {
    var e := d[..|d| - 3];
    if i == |e| {
      GroupFromLastThree(d);
    } else {
      var j := i + 1;
      GroupFromSplit(d, j);
      GroupFromSplitStep(d, e, i, j);
    }
  }

  /** One step of GroupFromSplit: position i before the last three digits has the same separator in d and in e. */
  lemma GroupFromSplitStep(d: string, e: string, i: nat, j: nat)
    requires |d| > 3 && e == d[..|d| - 3] && i < |e| && j == i + 1
    requires GroupFrom(d, j) == GroupFrom(e, j) + " " + d[|d| - 3..]
    ensures GroupFrom(d, i) == GroupFrom(e, i) + " " + d[|d| - 3..]
  {
    var t, rest := d[|d| - 3..], GroupFrom(e, j);
    var k, l := |e| - i, |d| - i;
    SameRemainder(k, l);
    var sep: string := if i > 0 && k % 3 == 0 then " " else "";
    GroupFromAt(d, i, j, l, sep);
    GroupFromAt(e, i, j, k, sep);
    assert e[i] == d[i];
    Reassociate(sep + [e[i]], rest, " ", t);
  }

  lemma Reassociate<T>(a: seq<T>, b: seq<T>, c: seq<T>, d: seq<T>)
    ensures a + (b + c + d) == a + b + c + d
  {
  }

  /** GroupFrom at position i, given the separator that goes before digit i. */
  lemma GroupFromAt(d: string, i: nat, j: nat, left: int, sep: string)
    requires i < |d| && j == i + 1 && left == |d| - i
    requires sep == if i > 0 && left % 3 == 0 then " " else ""
    ensures GroupFrom(d, i) == sep + [d[i]] + GroupFrom(d, j)
  {
  }

  lemma SameRemainder(x: int, y: int)
    requires y == x + 3
    ensures y % 3 == x % 3
  {
  }

  /** Grouping from the left is the right-counted groups joined by spaces. */
  lemma {:induction false} GroupFromJoins(d: string)
    requires d != []
    ensures GroupFrom(d, 0) == Join(Groups(d), ' ')
    decreases |d|
  {
    if |d| <= 3 {
      GroupFromOneGroup(d);
    } else {
      GroupFromJoins(d[..|d| - 3]);
      GroupFromLastGroup(d);
    }
  }

  lemma GroupFromOneGroup(d: string)
    requires 1 <= |d| <= 3
    ensures GroupFrom(d, 0) == Join(Groups(d), ' ')
  {
    GroupFromWhole(d);
    OneGroupJoined(d);
  }

  lemma GroupFromWhole(d: string)
    requires 1 <= |d| <= 3
    ensures GroupFrom(d, 0) == d
  {
    var left := |d|;
    GroupFromAt(d, 0, 1, left, "");
    GroupFromShort(d, 1);
    assert d == [d[0]] + d[1..];
  }

  lemma OneGroupJoined(d: string)
    requires |d| <= 3
    ensures Join(Groups(d), ' ') == d
  {
    assert Groups(d) == [d];
  }

  /** The step of GroupFromJoins: the last three digits become the last group. */
  lemma GroupFromLastGroup(d: string)
    requires |d| > 3
    requires GroupFrom(d[..|d| - 3], 0) == Join(Groups(d[..|d| - 3]), ' ')
    ensures GroupFrom(d, 0) == Join(Groups(d), ' ')
  {
    var e := d[..|d| - 3];
    GroupFromSplit(d, 0);
    JoinSnoc(Groups(e), d[|d| - 3..], ' ');
  }

  lemma {:induction false} UnspacedAppend(a: string, b: string)
    ensures Unspaced(a + b) == Unspaced(a) + Unspaced(b)
    decreases |a|
  {
    if a == [] {
      assert a + b == b;
    } else {
      assert (a + b)[1..] == a[1..] + b;
      UnspacedAppend(a[1..], b);
    }
  }

  lemma {:induction false} UnspacedFree(s: string)
    requires Free(s, ' ')
    ensures Unspaced(s) == s
    decreases |s|
  {
    if s != [] {
      UnspacedFree(s[1..]);
      assert s == [s[0]] + s[1..];
    }
  }

  lemma {:induction false} UnspacedJoin(parts: seq<string>)
    requires |parts| >= 1 && forall k :: 0 <= k < |parts| ==> Free(parts[k], ' ')
    ensures Unspaced(Join(parts, ' ')) == Concat(parts)
    decreases |parts|
  {
    var init := parts[..|parts| - 1];
    var last := parts[|parts| - 1];
    if |parts| == 1 {
      UnspacedFree(last);
      assert Concat(parts) == Concat([]) + last;
    } else {
      UnspacedJoin(init);
      UnspacedJoinStep(parts, init, last);
    }
  }

  /** The step of UnspacedJoin: the separator before the last piece disappears. */
  lemma UnspacedJoinStep(parts: seq<string>, init: seq<string>, last: string)
    requires |parts| >= 2 && init == parts[..|parts| - 1] && last == parts[|parts| - 1] && Free(last, ' ')
    requires Unspaced(Join(init, ' ')) == Concat(init)
    ensures Unspaced(Join(parts, ' ')) == Concat(parts)
  {
    JoinLastPiece(parts, init, last);
    UnspacedAroundSpace(Join(init, ' '), last);
  }

  lemma JoinLastPiece(parts: seq<string>, init: seq<string>, last: string)
    requires |parts| >= 2 && init == parts[..|parts| - 1] && last == parts[|parts| - 1]
    ensures Join(parts, ' ') == Join(init, ' ') + [' '] + last
  {
    assert parts == init + [last];
    JoinSnoc(init, last, ' ');
  }

  lemma UnspacedAroundSpace(j: string, last: string)
    requires Free(last, ' ')
    ensures Unspaced(j + [' '] + last) == Unspaced(j) + last
  {
    UnspacedFree(last);
    UnspacedAppend(j + [' '], last);
    UnspacedAppend(j, [' ']);
    UnspacedSpace();
    assert Unspaced(j) + [] == Unspaced(j);
  }

  lemma UnspacedSpace()
    ensures Unspaced([' ']) == []
  {
    assert [' '][1..] == [];
  }

  lemma DigitsFree(d: string)
    requires AllDigits(d)
    ensures Free(d, ' ')
  {
  }

  /**
   * formatNumber writes the sign, then the digit groups counted from the
   * right, separated by single spaces.
   */
  lemma FormatNumberGroups(n: int)
    ensures FormatNumber(n) == (if n < 0 then "-" else "") + Join(Groups(NatToString(if n < 0 then -n else n)), ' ')
  {
    if n < 0 {
      var d := NatToString(-n);
      assert IntToString(n) == "-" + d;
      SpacedDigits("-", d, 1, 0);
      assert SpaceBefore("-" + d, 0) == false;
      assert FormatNumber(n) == "-" + SpacedFrom("-" + d, 1);
      GroupFromJoins(d);
    } else {
      var d := NatToString(n);
      assert IntToString(n) == "" + d;
      SpacedDigits("", d, 0, 0);
      GroupFromJoins(d);
    }
  }

  /**
   * For a non-negative integer the pieces between spaces are digit
   * groups: the first of one to three digits, the others of exactly
   * three, spelling the decimal string.
   */
  lemma FormatNumberShape(n: nat)
    ensures var gs := Split(FormatNumber(n), ' ');
      Concat(gs) == NatToString(n) && 1 <= |gs[0]| <= 3 && (forall k :: 1 <= k < |gs| ==> |gs[k]| == 3)
      && forall k :: 0 <= k < |gs| ==> AllDigits(gs[k])
  {
    var d := NatToString(n);
    FormatNumberGroups(n);
    GroupsShape(d);
    assert "" + Join(Groups(d), ' ') == Join(Groups(d), ' ');
    SplitJoin(Groups(d), ' ');
  }

  /** Removing the spaces from formatNumber's output gives back toString. */
  lemma FormatNumberUnspaced(n: int)
    ensures Unspaced(FormatNumber(n)) == IntToString(n)
  {
    var d := NatToString(if n < 0 then -n else n);
    var sign := if n < 0 then "-" else "";
    FormatNumberGroups(n);
    GroupsShape(d);
    UnspacedJoin(Groups(d));
    UnspacedAppend(sign, Join(Groups(d), ' '));
    assert Unspaced(sign) == sign;
  }

  // ---------------------------------------------------------------------
  // animateBalance, up to the first frame.

  /** What animateBalance does first: nothing, write the final text, or start a frame animation. */
  datatype BalanceAnimation =
    | NoElement
    | Written(text: string)
    | Animating(realValue: int, frameCount: nat)

  /** `parseInt(v) || 0`, with None for NaN. */
  function OrZero(v: Option<int>): int
  {
    if v.Some? then v.value else 0
  }

  /** `Math.min(20, Math.abs(Math.floor(difference / 60)) + 8)`. */
  function FrameCount(difference: int): nat
  {
    // Division by the positive 60 rounds toward minus infinity, as Math.floor does.
    var q := difference / 60;
    var a := if q < 0 then -q else q;
    if a + 8 < 20 then a + 8 else 20
  }

  /**
   * animateBalance(element, start, end), with start and end as parseInt
   * read them (None for NaN).
   */
  function AnimateBalance(element: bool, start: Option<int>, end: Option<int>): BalanceAnimation
  {
    if !element then NoElement
    else
      var s, e := OrZero(start), OrZero(end);
      if s == e then Written(FormatNumber(e)) else Animating(e, FrameCount(e - s))
  }

  /**
   * Equal values only write the formatted end value; different values
   * record the end value and animate in 8 to 20 frames, the full 20 once
   * the difference reaches 12 steps of 60 below or above.
   */
  lemma AnimationFrames(start: Option<int>, end: Option<int>)
    ensures OrZero(start) == OrZero(end) <==> AnimateBalance(true, start, end) == Written(FormatNumber(OrZero(end)))
    ensures OrZero(start) != OrZero(end) ==>
      var a := AnimateBalance(true, start, end);
      a.Animating? && a.realValue == OrZero(end) && 8 <= a.frameCount <= 20
      && (a.frameCount == 20 <==> OrZero(end) - OrZero(start) >= 720 || OrZero(end) - OrZero(start) < -660)
  {
  }

  /** A larger rise never takes fewer frames. */
  lemma FramesMonotone(d1: int, d2: int)
    requires 0 <= d1 <= d2
    ensures FrameCount(d1) <= FrameCount(d2)
  {
    assert d1 / 60 <= d2 / 60;
  }
}

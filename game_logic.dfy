// Outcome selection and repair (game-logic.js): the weighted draw of a
// gift, the reel sequence with the winner in the middle, the per-bet gift
// list, the local demo result and the repair of a result received from the
// server. Math.random() is a stream of draws in [0, 1) passed in as a
// function from the draw's position; each operation says which positions
// it consumes.
module GameLogic {
  import opened Js

  /** A JavaScript number: a finite value or NaN. */
  datatype Number = Num(v: real) | NaN

  /**
   * The value of a chance field that is defined: a number, null, or a
   * value of another type (a string, a boolean, an object).
   */
  datatype Value = Number(n: Number) | Null | Other

  /** One result of Math.random(). */
  type Draw = r: real | 0.0 <= r < 1.0

  /** The successive results of Math.random(), by position. */
  type Rng = nat -> Draw

  /**
   * A gift record; a None field is undefined. `kind` is the record's
   * `type` field, `giftType` its `gift_type`, `giftId` its `gift_id`.
   */
  datatype Gift = Gift(
    chance: Option<Value>,
    originalChance: Option<Value>,
    starCount: Option<int>,
    emoji: Option<string>,
    animationPath: Option<string>,
    animation: Option<string>,
    thumbnailPath: Option<string>,
    kind: Option<string>,
    giftType: Option<string>,
    giftId: Option<string>)

  /** The per-bet overrides in BET_GIFTS; `realChance` is its `real_chance`. */
  datatype BetGift = BetGift(
    chance: Option<Value>,
    emoji: Option<string>,
    animationPath: Option<string>,
    thumbnailPath: Option<string>,
    kind: Option<string>,
    realChance: Option<Value>)

  /** window.appSettings: LOTTERY_WHEELS and BET_GIFTS, by bet type. */
  datatype Settings = Settings(wheels: map<string, seq<string>>, betGifts: map<string, map<string, BetGift>>)

  /** The gifts dictionary, as Object.entries lists it. */
  type Catalogue = seq<(string, Gift)>

  /**
   * A play result. `success` and `cooldown` are the truthiness of those
   * fields; `sequence` is None when the field is not an array.
   */
  datatype GameResult = GameResult(
    success: bool,
    cooldown: bool,
    exp: Option<int>,
    sequence: Option<seq<string>>,
    winningGiftId: Option<string>,
    winningGiftType: Option<string>,
    winningGift: Option<Gift>)

  const DefaultSequenceLength := 41
  const NoGiftsError := "no gifts available for this bet type"
  const TypeError := "TypeError"

  function Ids(gifts: Catalogue): seq<string>
  {
    if gifts == [] then [] else [gifts[0].0] + Ids(gifts[1..])
  }

  /** gifts[id]: the entry with that key. */
  function Find(gifts: Catalogue, id: string): (r: Option<Gift>)
    ensures r.Some? <==> id in Ids(gifts)
  {
    if gifts == [] then None else if gifts[0].0 == id then Some(gifts[0].1) else Find(gifts[1..], id)
  }

  // ---------------------------------------------------------------------
  // selectRandomGiftByChance.

  /** The chance the draw reads: `chance` with attractive chances, else `originalChance` unless it is undefined. */
  function ChanceOf(g: Gift, attractive: bool): Option<Value>
  {
    if attractive then g.chance else if g.originalChance.Some? then g.originalChance else g.chance
  }

  /**
   * What `sum + chance` adds: a number itself and null 0; None is NaN,
   * which undefined and NaN add.
   */
  function Weight(g: Gift, attractive: bool): Option<real>
  {
    match ChanceOf(g, attractive)
    case Some(Number(Num(v))) => Some(v)
    case Some(Null) => Some(0.0)
    case _ => None
  }

  function Weights(gifts: Catalogue, attractive: bool): (ws: seq<Option<real>>)
    ensures |ws| == |gifts|
    ensures forall i :: 0 <= i < |gifts| ==> ws[i] == Weight(gifts[i].1, attractive)
  {
    if gifts == [] then [] else [Weight(gifts[0].1, attractive)] + Weights(gifts[1..], attractive)
  }

  /** `typeof c === 'number'` (NaN included): the values toFixed can be called on. */
  predicate OfTypeNumber(c: Option<Value>)
  {
    c.Some? && c.value.Number?
  }

  /** Every chance the draw reads can be printed. */
  predicate AllPrintable(gifts: Catalogue, attractive: bool)
  {
    forall i :: 0 <= i < |gifts| ==> OfTypeNumber(ChanceOf(gifts[i].1, attractive))
  }

  /** No chance the draw reads is null. */
  predicate NoNull(gifts: Catalogue, attractive: bool)
  {
    forall i :: 0 <= i < |gifts| ==> ChanceOf(gifts[i].1, attractive) != Some(Null)
  }

  /** Addition where NaN absorbs everything. */
  function Add(a: Option<real>, b: Option<real>): Option<real>
  {
    if a.Some? && b.Some? then Some(a.value + b.value) else None
  }

  /** The sum of the weights, from the left. */
  function Total(ws: seq<Option<real>>): Option<real>
  {
    if ws == [] then Some(0.0) else Add(Total(ws[..|ws| - 1]), ws[|ws| - 1])
  }

  /** `randomNum <= currentSum`, false as soon as either is NaN. */
  predicate Reaches(target: Option<real>, sum: Option<real>)
  {
    target.Some? && sum.Some? && target.value <= sum.value
  }

  /** Math.random() * totalChance. */
  function Scaled(u: Draw, total: Option<real>): Option<real>
  {
    if total.Some? then Some(u * total.value) else None
  }

  /** The scan for the first running sum that reaches the target, from position `i` with running sum `sum`; None when none does. */
  function ScanFrom(ws: seq<Option<real>>, target: Option<real>, i: nat, sum: Option<real>): (r: Option<nat>)
    requires i <= |ws|
    ensures r.Some? ==> i <= r.value < |ws|
    decreases |ws| - i
  {
    if i == |ws| then None
    else
      var s := Add(sum, ws[i]);
      if Reaches(target, s) then Some(i) else ScanFrom(ws, target, i + 1, s)
  }

  /** The position the scan breaks at, if it breaks. */
  function Chosen(ws: seq<Option<real>>, target: Option<real>): (r: Option<nat>)
    ensures r.Some? ==> r.value < |ws|
  {
    ScanFrom(ws, target, 0, Some(0.0))
  }

  /**
   * selectRandomGiftByChance with draw `u`. It throws a TypeError when the
   * list is empty (its first entry is read), when a list of at most ten
   * gifts has a chance that is not a number (the debug listing calls
   * toFixed on every chance), and when the scan breaks at a gift whose
   * chance is not a number (the log line calls toFixed on it). When the
   * scan never breaks the first gift is kept.
   */
  function Select(gifts: Catalogue, attractive: bool, u: Draw): (r: Result<(string, Gift)>)
    ensures r.Ok? ==> r.value in gifts
    ensures r.Throws? ==> r.error == TypeError
  {
    if gifts == [] || (|gifts| <= 10 && !AllPrintable(gifts, attractive)) then Throws(TypeError)
    else
      var ws := Weights(gifts, attractive);
      match Chosen(ws, Scaled(u, Total(ws)))
      case None => Ok(gifts[0])
      case Some(j) => if OfTypeNumber(ChanceOf(gifts[j].1, attractive)) then Ok(gifts[j]) else Throws(TypeError)
  }

  /** The running sum up to and including position j reaches the target. */
  predicate ReachedAt(ws: seq<Option<real>>, target: Option<real>, j: nat)
    requires j < |ws|
  {
    Reaches(target, Total(ws[..j + 1]))
  }

  /** The scan, started at `i`, breaks at the first later position whose running sum reaches the target, if there is one. */
  lemma {:induction false} ScanFindsFirst(ws: seq<Option<real>>, target: Option<real>, i: nat)
    requires i <= |ws|
    ensures var r := ScanFrom(ws, target, i, Total(ws[..i]));
      if exists j :: i <= j < |ws| && ReachedAt(ws, target, j)
      then r.Some? && i <= r.value < |ws| && ReachedAt(ws, target, r.value)
           && forall j :: i <= j < r.value ==> !ReachedAt(ws, target, j)
      else r.None?
    decreases |ws| - i
  {
    if i < |ws| {
      var k := i + 1;
      ScanFindsFirst(ws, target, k);
      ScanStep(ws, target, i, k);
    }
  }

  /** What ScanFindsFirst states about the scan started at `i`. */
  predicate FirstFoundFrom(ws: seq<Option<real>>, target: Option<real>, i: nat)
    requires i <= |ws|
  {
    var r := ScanFrom(ws, target, i, Total(ws[..i]));
    if exists j :: i <= j < |ws| && ReachedAt(ws, target, j)
    then r.Some? && i <= r.value < |ws| && ReachedAt(ws, target, r.value)
         && forall j :: i <= j < r.value ==> !ReachedAt(ws, target, j)
    else r.None?
  }

  lemma ScanStep(ws: seq<Option<real>>, target: Option<real>, i: nat, k: nat)
    requires i < |ws| && k == i + 1 && FirstFoundFrom(ws, target, k)
    ensures FirstFoundFrom(ws, target, i)
  {
    var sum := Total(ws[..k]);
    RunningSumStep(ws, i, k);
    if !ReachedAt(ws, target, i) {
      assert ScanFrom(ws, target, i, Total(ws[..i])) == ScanFrom(ws, target, k, sum);
      if exists j :: i <= j < |ws| && ReachedAt(ws, target, j) {
        var j :| i <= j < |ws| && ReachedAt(ws, target, j);
        assert j != i;
      }
    }
  }

  lemma RunningSumStep(ws: seq<Option<real>>, i: nat, k: nat)
    requires i < |ws| && k == i + 1
    ensures Add(Total(ws[..i]), ws[i]) == Total(ws[..k])
  {
    assert ws[..k][..i] == ws[..i];
  }

  /**
   * The gift drawn is the first whose running weight sum reaches
   * Math.random() * total; when none does (a NaN weight) the scan does
   * not break.
   */
  lemma ChosenIsFirstReaching(ws: seq<Option<real>>, target: Option<real>)
    ensures var r := Chosen(ws, target);
      if exists j :: 0 <= j < |ws| && ReachedAt(ws, target, j)
      then r.Some? && ReachedAt(ws, target, r.value)
           && forall j :: 0 <= j < r.value ==> !ReachedAt(ws, target, j)
      else r.None?
  {
    assert ws[..0] == [];
    ScanFindsFirst(ws, target, 0);
  }

  /** A running sum that reaches the target is a number, so the weight it last added is one. */
  lemma ReachedWeightDefined(ws: seq<Option<real>>, target: Option<real>, j: nat)
    requires j < |ws| && ReachedAt(ws, target, j)
    ensures ws[j].Some?
  {
    assert ws[..j + 1][..j] == ws[..j];
  }

  predicate Finite(ws: seq<Option<real>>)
  {
    forall i :: 0 <= i < |ws| ==> ws[i].Some? && ws[i].value >= 0.0
  }

  lemma {:induction false} FiniteTotal(ws: seq<Option<real>>)
    requires Finite(ws)
    ensures Total(ws).Some? && Total(ws).value >= 0.0
    decreases |ws|
  {
    if ws != [] {
      FiniteTotal(ws[..|ws| - 1]);
    }
  }

  lemma ScaleBelow(u: Draw, t: real)
    requires t >= 0.0
    ensures Reaches(Scaled(u, Some(t)), Some(t))
  {
    var d := 1.0 - u;
    NonNegProduct(d, t);
    assert d * t + u * t == t;
  }

  lemma NonNegProduct(x: real, y: real)
    requires x >= 0.0 && y >= 0.0
    ensures x * y >= 0.0
  {}

  /**
   * With non-negative weights the fallback never decides: some running sum
   * (at the latest the total) reaches the scaled draw.
   */
  lemma FiniteWeightsReach(ws: seq<Option<real>>, u: Draw)
    requires ws != [] && Finite(ws)
    ensures exists j :: 0 <= j < |ws| && ReachedAt(ws, Scaled(u, Total(ws)), j)
  {
    FiniteTotal(ws);
    var total := Total(ws);
    ScaleBelow(u, total.value);
    assert total == Some(total.value);
    assert ws[..|ws| - 1 + 1] == ws;
    assert ReachedAt(ws, Scaled(u, total), |ws| - 1);
  }

  /**
   * When the draw throws: a short list with a chance that is not a number
   * always throws, and a non-empty list with no null chance does not throw
   * when it is long or all its chances are numbers (a gift whose chance is
   * NaN, undefined or of another type makes the running sum NaN, so the
   * scan never breaks at it).
   */
  lemma SelectThrows(gifts: Catalogue, attractive: bool, u: Draw)
    ensures |gifts| <= 10 && !AllPrintable(gifts, attractive) ==> Select(gifts, attractive, u).Throws?
    ensures gifts != [] && NoNull(gifts, attractive) && (|gifts| > 10 || AllPrintable(gifts, attractive))
            ==> Select(gifts, attractive, u).Ok?
  {
    if gifts != [] && NoNull(gifts, attractive) && (|gifts| > 10 || AllPrintable(gifts, attractive)) {
      var ws := Weights(gifts, attractive);
      var target := Scaled(u, Total(ws));
      ChosenPrintable(gifts, attractive, ws, target);
    }
  }

  /** Without null chances, the scan can only break at a chance that is a number. */
  lemma ChosenPrintable(gifts: Catalogue, attractive: bool, ws: seq<Option<real>>, target: Option<real>)
    requires NoNull(gifts, attractive) && ws == Weights(gifts, attractive)
    ensures var c := Chosen(ws, target); c.Some? ==> OfTypeNumber(ChanceOf(gifts[c.value].1, attractive))
  {
    ChosenIsFirstReaching(ws, target);
    var c := Chosen(ws, target);
    if c.Some? {
      var j := c.value;
      ReachedWeightDefined(ws, target, j);
      assert ChanceOf(gifts[j].1, attractive) != Some(Null);
    }
  }

  /**
   * A long list whose first chance is null throws on a zero draw when its
   * weights add up to a number: the scan breaks at once, with a running
   * sum of 0, and prints that null chance.
   */
  lemma NullFirstThrows(gifts: Catalogue, attractive: bool)
    requires |gifts| > 10 && ChanceOf(gifts[0].1, attractive) == Some(Null)
    requires Total(Weights(gifts, attractive)).Some?
    ensures Select(gifts, attractive, 0.0) == Throws(TypeError)
  {
    var ws := Weights(gifts, attractive);
    assert ws[..1] == [ws[0]];
    assert ReachedAt(ws, Scaled(0.0, Total(ws)), 0);
    ChosenIsFirstReaching(ws, Scaled(0.0, Total(ws)));
  }

  /**
   * selectRandomGiftByChance: sum the weights, scale the draw, read the
   * first entry, print every chance of a short list, then scan for the
   * first running sum that reaches the draw and print the chance found.
   */
  method SelectRandomGiftByChance(gifts: Catalogue, attractive: bool, u: Draw) returns (r: Result<(string, Gift)>)
    ensures r == Select(gifts, attractive, u)
  {
    var totalChance := SumChances(gifts, attractive);
    var randomNum := Scaled(u, totalChance);
    if |gifts| == 0 {
      return Throws(TypeError);
    }
    if |gifts| <= 10 {
      var printable := PrintChances(gifts, attractive);
      if !printable {
        return Throws(TypeError);
      }
    }
    r := ScanForGift(gifts, attractive, randomNum);
  }

  /** The reduce that adds up the weights. */
  method SumChances(gifts: Catalogue, attractive: bool) returns (totalChance: Option<real>)
    ensures totalChance == Total(Weights(gifts, attractive))
  {
    ghost var ws := Weights(gifts, attractive);
    totalChance := Some(0.0);
    for i := 0 to |gifts|
      invariant totalChance == Total(ws[..i])
    {
      assert ws[..i + 1][..i] == ws[..i];
      totalChance := Add(totalChance, Weight(gifts[i].1, attractive));
    }
    assert ws[..|gifts|] == ws;
  }

  /** The debug listing of a short list: false where toFixed would throw on a chance that is not a number. */
  method PrintChances(gifts: Catalogue, attractive: bool) returns (printable: bool)
    ensures printable == AllPrintable(gifts, attractive)
  {
    for i := 0 to |gifts|
      invariant forall j :: 0 <= j < i ==> OfTypeNumber(ChanceOf(gifts[j].1, attractive))
    {
      if !OfTypeNumber(ChanceOf(gifts[i].1, attractive)) {
        return false;
      }
    }
    return true;
  }

  /**
   * The scan for the first running sum that reaches the scaled draw; the
   * chance found is printed with toFixed, and without a break the first
   * gift is kept.
   */
  method ScanForGift(gifts: Catalogue, attractive: bool, randomNum: Option<real>) returns (r: Result<(string, Gift)>)
    requires gifts != []
    ensures r == match Chosen(Weights(gifts, attractive), randomNum)
      case None => Ok(gifts[0])
      case Some(j) => if OfTypeNumber(ChanceOf(gifts[j].1, attractive)) then Ok(gifts[j]) else Throws(TypeError)
  {
    ghost var ws := Weights(gifts, attractive);
    var currentSum: Option<real> := Some(0.0);
    var i := 0;
    while i < |gifts|
      invariant 0 <= i <= |gifts|
      invariant ScanFrom(ws, randomNum, i, currentSum) == Chosen(ws, randomNum)
      decreases |gifts| - i
    {
      var chanceValue := ChanceOf(gifts[i].1, attractive);
      assert ws[i] == Weight(gifts[i].1, attractive);
      currentSum := Add(currentSum, Weight(gifts[i].1, attractive));
      if Reaches(randomNum, currentSum) {
        assert Chosen(ws, randomNum) == Some(i);
        if !OfTypeNumber(chanceValue) {
          return Throws(TypeError);
        }
        return Ok(gifts[i]);
      }
      i := i + 1;
    }
    return Ok(gifts[0]);
  }

  // ---------------------------------------------------------------------
  // generateSequenceWithWinningGift.

  /** Math.floor(u * n). */
  function Index(u: Draw, n: nat): (i: nat)
    requires n > 0
    ensures i < n
  {
    assert 0.0 <= u * (n as real) < n as real;
    var f := (u * (n as real)).Floor;
    assert f as real <= u * (n as real);
    f
  }

  /** `count` gift ids drawn uniformly by index, with draws k, k+1, ... */
  function Filler(gifts: Catalogue, rng: Rng, k: nat, count: nat): (s: seq<string>)
    requires gifts != []
    ensures |s| == count
    ensures forall i :: 0 <= i < count ==> s[i] == gifts[Index(rng(k + i), |gifts|)].0
    decreases count
  {
    if count == 0 then [] else [gifts[Index(rng(k), |gifts|)].0] + Filler(gifts, rng, k + 1, count - 1)
  }

  /**
   * generateSequenceWithWinningGift(gifts, winner, n) with draws from k:
   * floor(n/2) random ids, the winner, floor(n/2) random ids. Reading an id
   * from an empty list throws.
   */
  function Sequence(gifts: Catalogue, winner: string, n: int, rng: Rng, k: nat): (r: Result<seq<string>>)
    ensures r.Ok? <==> n / 2 <= 0 || gifts != []
    ensures r.Ok? ==> var half := if n / 2 <= 0 then 0 else n / 2;
      |r.value| == 2 * half + 1 && r.value[half] == winner
  {
    var half := n / 2;
    if half <= 0 then Ok([winner])
    else if gifts == [] then Throws(TypeError)
    else Ok(Filler(gifts, rng, k, half) + [winner] + Filler(gifts, rng, k + half, half))
  }

  /** How many draws the sequence consumes. */
  function SequenceDraws(n: int): nat
  {
    if n / 2 <= 0 then 0 else 2 * (n / 2)
  }

  /**
   * The sequence has 2*floor(n/2)+1 entries (41 by default, n+1 for an even
   * n), the winner sits at index floor(n/2), which is also half its length
   * rounded down, and every other entry is the id of a listed gift.
   */
  lemma SequenceShape(gifts: Catalogue, winner: string, n: int, rng: Rng, k: nat)
    requires Sequence(gifts, winner, n, rng, k).Ok?
    ensures var s := Sequence(gifts, winner, n, rng, k).value;
      var half := if n / 2 <= 0 then 0 else n / 2;
      |s| == 2 * half + 1 && |s| / 2 == half && s[half] == winner
      && forall i :: 0 <= i < |s| && i != half ==> s[i] in Ids(gifts)
  {
    var s := Sequence(gifts, winner, n, rng, k).value;
    if n / 2 > 0 {
      var half := n / 2;
      var later := k + half;
      var a, b := Filler(gifts, rng, k, half), Filler(gifts, rng, later, half);
      FillerListed(gifts, rng, k, half);
      FillerListed(gifts, rng, later, half);
      assert s == a + [winner] + b;
      AroundListed(a, winner, b, Ids(gifts));
    }
  }

  /** Entries drawn from `ids` on both sides of the winner: all but the middle one are in `ids`. */
  lemma AroundListed(a: seq<string>, winner: string, b: seq<string>, ids: seq<string>)
    requires forall i :: 0 <= i < |a| ==> a[i] in ids
    requires forall i :: 0 <= i < |b| ==> b[i] in ids
    ensures var s := a + [winner] + b;
      forall i :: 0 <= i < |s| && i != |a| ==> s[i] in ids
  {
    var s := a + [winner] + b;
    forall i | 0 <= i < |s| && i != |a|
      ensures s[i] in ids
    {
      if i < |a| {
        assert s[i] == a[i];
      } else {
        assert s[i] == b[i - |a| - 1];
      }
    }
  }

  /** Every drawn id is the id of a listed gift. */
  lemma FillerListed(gifts: Catalogue, rng: Rng, k: nat, count: nat)
    requires gifts != []
    ensures forall i :: 0 <= i < count ==> Filler(gifts, rng, k, count)[i] in Ids(gifts)
  {
    var f := Filler(gifts, rng, k, count);
    forall i | 0 <= i < count
      ensures f[i] in Ids(gifts)
    {
      IdsListed(gifts, Index(rng(k + i), |gifts|));
    }
  }

  lemma {:induction false} IdsListed(gifts: Catalogue, j: nat)
    requires j < |gifts|
    ensures gifts[j].0 in Ids(gifts)
    decreases j
  {
    if j > 0 {
      IdsListed(gifts[1..], j - 1);
    }
  }

  lemma DefaultSequence(gifts: Catalogue, winner: string, rng: Rng, k: nat)
    requires gifts != []
    ensures var s := Sequence(gifts, winner, DefaultSequenceLength, rng, k);
      s.Ok? && |s.value| == 41 && s.value[20] == winner
  {
    SequenceShape(gifts, winner, DefaultSequenceLength, rng, k);
  }

  /** generateSequenceWithWinningGift: the two loops push drawn ids around the winner. */
  method GenerateSequenceWithWinningGift(gifts: Catalogue, winner: string, n: int, rng: Rng, k: nat)
    returns (r: Result<seq<string>>, next: nat)
    ensures r == Sequence(gifts, winner, n, rng, k)
    ensures r.Ok? ==> next == k + SequenceDraws(n)
  {
    var half := n / 2;
    next := k;
    if half <= 0 {
      // Neither loop runs.
      return Ok([winner]), next;
    }
    if |gifts| == 0 {
      // The first iteration reads the id of an undefined entry.
      return Throws(TypeError), next;
    }
    var sequence: seq<string>;
    sequence, next := PushDrawn(gifts, rng, [], next, half);
    assert sequence == Filler(gifts, rng, k, half);
    sequence := sequence + [winner];
    sequence, next := PushDrawn(gifts, rng, sequence, next, half);
    assert sequence == Filler(gifts, rng, k, half) + [winner] + Filler(gifts, rng, k + half, half);
    return Ok(sequence), next;
  }

  /** One of the two push loops: `count` ids drawn with draws k, k+1, ... appended to `sequence`. */
  method PushDrawn(gifts: Catalogue, rng: Rng, sequence: seq<string>, k: nat, count: nat)
    returns (s: seq<string>, next: nat)
    requires gifts != []
    ensures s == sequence + Filler(gifts, rng, k, count)
    ensures next == k + count
  {
    s, next := sequence, k;
    var i := 0;
    while i < count
      invariant 0 <= i <= count
      invariant next == k + i
      invariant s == sequence + Filler(gifts, rng, k, i)
    {
      FillerExtend(gifts, rng, k, i);
      s := s + [gifts[Index(rng(next), |gifts|)].0];
      next := next + 1;
      i := i + 1;
    }
  }

  lemma FillerExtend(gifts: Catalogue, rng: Rng, k: nat, i: nat)
    requires gifts != []
    ensures Filler(gifts, rng, k, i + 1) == Filler(gifts, rng, k, i) + [gifts[Index(rng(k + i), |gifts|)].0]
  {
  }

  // ---------------------------------------------------------------------
  // getAvailableGiftsForBet.

  /** LOTTERY_WHEELS[bet], or the empty list. */
  function Wheel(s: Settings, bet: string): seq<string>
  {
    if bet in s.wheels then s.wheels[bet] else []
  }

  /** BET_GIFTS[bet][id], when there is one. */
  function BetOverride(s: Settings, bet: string, id: string): Option<BetGift>
  {
    if bet in s.betGifts && id in s.betGifts[bet] then Some(s.betGifts[bet][id]) else None
  }

  function Min(a: real, b: real): real { if a <= b then a else b }
  function Max(a: real, b: real): real { if a >= b then a else b }

  /** The chance given to a gift that has none: 100 / (star_count || 1), kept within [1, 20]. */
  function DefaultChance(starCount: Option<int>): (c: real)
    ensures 1.0 <= c <= 20.0
  {
    var value := if starCount.Some? && starCount.value != 0 then starCount.value else 1;
    Max(1.0, Min(20.0, 100.0 / (value as real)))
  }

  /** The dearer the gift, the smaller its default chance. */
  lemma DefaultChanceAntitone(a: int, b: int)
    requires 1 <= a <= b
    ensures DefaultChance(Some(b)) <= DefaultChance(Some(a))
  {
    QuotientShrinks(a as real, b as real);
  }

  lemma QuotientShrinks(x: real, y: real)
    requires 1.0 <= x <= y
    ensures 100.0 / y <= 100.0 / x
  {
    var p, q := 100.0 / x, 100.0 / y;
    assert p * x == 100.0 && q * y == 100.0;
    assert p * x <= p * y;
  }

  /**
   * A gift without a star count, or with 0, gets the ceiling 20, as does
   * any gift up to 5 stars; from 100 stars on, and for a negative count,
   * it gets the floor 1; in between it is 100 / star_count.
   */
  lemma DefaultChanceValues(n: int)
    ensures DefaultChance(None) == 20.0 && DefaultChance(Some(0)) == 20.0
    ensures 1 <= n <= 5 ==> DefaultChance(Some(n)) == 20.0
    ensures 5 <= n <= 100 ==> DefaultChance(Some(n)) == 100.0 / (n as real)
    ensures (n >= 100 || n < 0) ==> DefaultChance(Some(n)) == 1.0
  {
    if 1 <= n <= 5 {
      QuotientShrinks(n as real, 5.0);
    }
    if 5 <= n <= 100 {
      QuotientShrinks(5.0, n as real);
      QuotientShrinks(n as real, 100.0);
    }
    if n >= 100 {
      QuotientShrinks(100.0, n as real);
    }
    if n < 0 {
      assert 100.0 / (n as real) * (n as real) == 100.0;
    }
  }

  /** A number other than NaN. */
  predicate IsNumber(c: Option<Value>)
  {
    OfTypeNumber(c) && c.value.n.Num?
  }

  /** The aliases both branches add: animation from animation_path, gift_type from type. */
  function Aliased(g: Gift): (r: Gift)
    ensures r.animation == (if g.animation.None? then g.animationPath else g.animation)
    ensures r.giftType == (if g.giftType.None? then g.kind else g.giftType)
    ensures r.(animation := g.animation, giftType := g.giftType) == g
  {
    var a := if g.animationPath.Some? && g.animation.None? then g.(animation := g.animationPath) else g;
    if a.kind.Some? && a.giftType.None? then a.(giftType := a.kind) else a
  }

  /** A bet's overrides applied to a copy of a gift. */
  function Overridden(g: Gift, b: BetGift): Gift
  {
    g.(chance := if OfTypeNumber(b.chance) then b.chance else g.chance,
       emoji := if Truthy(b.emoji) then b.emoji else g.emoji,
       animationPath := if Truthy(b.animationPath) then b.animationPath else g.animationPath,
       thumbnailPath := if Truthy(b.thumbnailPath) then b.thumbnailPath else g.thumbnailPath,
       kind := if Truthy(b.kind) then b.kind else g.kind,
       originalChance := if b.realChance.Some? then b.realChance else g.originalChance)
  }

  /** The copy of a wheel gift: overrides, a default chance, the aliases, and originalChance from chance. */
  function Normalized(g: Gift, b: Option<BetGift>): Gift
  {
    var c1 := if b.Some? then Overridden(g, b.value) else g;
    var c2 := if !IsNumber(c1.chance) then c1.(chance := Some(Number(Num(DefaultChance(c1.starCount))))) else c1;
    var c3 := Aliased(c2);
    if c3.originalChance.None? then c3.(originalChance := c3.chance) else c3
  }

  function AliasAll(gifts: Catalogue): (r: Catalogue)
    ensures |r| == |gifts|
    ensures forall i :: 0 <= i < |gifts| ==> r[i] == (gifts[i].0, Aliased(gifts[i].1))
  {
    if gifts == [] then [] else [(gifts[0].0, Aliased(gifts[0].1))] + AliasAll(gifts[1..])
  }

  function OnWheel(gifts: Catalogue, wheel: seq<string>, s: Settings, bet: string): Catalogue
  {
    if gifts == [] then []
    else
      var rest := OnWheel(gifts[1..], wheel, s, bet);
      var (id, g) := gifts[0];
      if id in wheel then [(id, Normalized(g, BetOverride(s, bet, id)))] + rest else rest
  }

  /** getAvailableGiftsForBet(gifts, bet). */
  function AvailableGifts(gifts: Catalogue, s: Settings, bet: string): Catalogue
  {
    var wheel := Wheel(s, bet);
    if wheel == [] then AliasAll(gifts) else OnWheel(gifts, wheel, s, bet)
  }

  /** With no wheel for the bet every gift is offered, in order, with only the aliases added. */
  lemma EmptyWheelOffersAll(gifts: Catalogue, s: Settings, bet: string)
    requires Wheel(s, bet) == []
    ensures var r := AvailableGifts(gifts, s, bet);
      |r| == |gifts| && Ids(r) == Ids(gifts)
      && forall i :: 0 <= i < |r| ==> r[i].1 == Aliased(gifts[i].1)
  {
    AliasIds(gifts);
  }

  lemma {:induction false} AliasIds(gifts: Catalogue)
    ensures Ids(AliasAll(gifts)) == Ids(gifts)
    decreases |gifts|
  {
    if gifts != [] {
      AliasIds(gifts[1..]);
      assert AliasAll(gifts)[1..] == AliasAll(gifts[1..]);
    }
  }

  /**
   * With a wheel, the offer is exactly the listed gifts on the wheel, in
   * catalogue order, each one the normalised copy of the catalogue entry.
   */
  lemma {:induction false} WheelOffersExactly(gifts: Catalogue, wheel: seq<string>, s: Settings, bet: string)
    ensures var r := OnWheel(gifts, wheel, s, bet);
      (forall id :: id in Ids(r) <==> id in Ids(gifts) && id in wheel)
      && forall e :: e in r ==> exists g :: (e.0, g) in gifts && e.1 == Normalized(g, BetOverride(s, bet, e.0))
    decreases |gifts|
  {
    if gifts != [] {
      WheelOffersExactly(gifts[1..], wheel, s, bet);
      var rest := OnWheel(gifts[1..], wheel, s, bet);
      var (id, g) := gifts[0];
      assert Ids(gifts) == [id] + Ids(gifts[1..]);
      forall e | e in rest
        ensures exists g' :: (e.0, g') in gifts && e.1 == Normalized(g', BetOverride(s, bet, e.0))
      {
        var g' :| (e.0, g') in gifts[1..] && e.1 == Normalized(g', BetOverride(s, bet, e.0));
        assert (e.0, g') in gifts;
      }
      if id in wheel {
        var r := [(id, Normalized(g, BetOverride(s, bet, id)))] + rest;
        assert Ids(r) == [id] + Ids(rest);
        assert (id, g) in gifts;
      }
    }
  }

  /**
   * A wheel gift's copy always has a numeric chance and an originalChance:
   * the bet's chance if it is a number, else the gift's own, else the
   * default; originalChance is the bet's real_chance, else the gift's, else
   * the chance. gift_type falls back to type.
   */
  lemma NormalizedChance(g: Gift, b: Option<BetGift>)
    ensures var c := Normalized(g, b);
      var chance := if b.Some? && OfTypeNumber(b.value.chance) then b.value.chance else g.chance;
      var original := if b.Some? && b.value.realChance.Some? then b.value.realChance else g.originalChance;
      var kind := if b.Some? && Truthy(b.value.kind) then b.value.kind else g.kind;
      c.chance == (if IsNumber(chance) then chance else Some(Number(Num(DefaultChance(g.starCount)))))
      && c.originalChance == (if original.Some? then original else c.chance)
      && c.giftType == (if g.giftType.None? then kind else g.giftType)
      && c.starCount == g.starCount
  {
  }

  // ---------------------------------------------------------------------
  // generateDemoResult.

  /** The winning gift as the demo result presents it. */
  function Formatted(id: string, g: Gift): Gift
  {
    var kind := Or(g.kind, g.giftType);
    Gift(None, None, g.starCount, g.emoji, g.animationPath, g.animationPath, g.thumbnailPath, kind, kind, None)
  }

  /**
   * generateDemoResult at time `nowMs` with draws from k: the first draw
   * selects the gift with the displayed chances, the next ones build the
   * default-length sequence around it. Also gives the next unused draw.
   */
  function DemoResult(gifts: Catalogue, s: Settings, bet: string, rng: Rng, k: nat, nowMs: int): Result<(GameResult, nat)>
  {
    var available := AvailableGifts(gifts, s, bet);
    if available == [] then Throws(NoGiftsError) else DemoDraw(available, rng, k, nowMs)
  }

  /** The draws of generateDemoResult over a non-empty offer. */
  function DemoDraw(available: Catalogue, rng: Rng, k: nat, nowMs: int): Result<(GameResult, nat)>
  {
    match Select(available, true, rng(k))
    case Throws(e) => Throws(e)
    case Ok(picked) => DemoAround(available, picked.0, picked.1, rng, k + 1, nowMs)
  }

  /** The demo result around the drawn gift, with the sequence drawn from k. */
  function DemoAround(available: Catalogue, id: string, g: Gift, rng: Rng, k: nat, nowMs: int): Result<(GameResult, nat)>
  {
    match Sequence(available, id, DefaultSequenceLength, rng, k)
    case Throws(e) => Throws(e)
    case Ok(sequence) =>
      var result := GameResult(true, false, None, Some(sequence), Some(IntToString(nowMs)), Some(id), Some(Formatted(id, g)));
      Ok((result, k + SequenceDraws(DefaultSequenceLength)))
  }

  /**
   * The demo result throws when no gift is offered or the draw throws. With
   * a wheel for the bet, or a catalogue whose chances are all numbers, it
   * throws exactly when no gift is offered. A result is a success whose
   * winning type is a gift on offer and sits in the middle of a 41-entry
   * sequence, and whose winning id is the time.
   */
  lemma DemoResultShape(gifts: Catalogue, s: Settings, bet: string, rng: Rng, k: nat, nowMs: int)
    ensures var available := AvailableGifts(gifts, s, bet);
      var d := DemoResult(gifts, s, bet, rng, k, nowMs);
      (d.Throws? <==> available == [] || Select(available, true, rng(k)).Throws?)
      && (Wheel(s, bet) != [] || AllPrintable(gifts, true) ==> (d.Throws? <==> available == []))
      && (d.Ok? ==>
            var r := d.value.0;
            r.success && r.winningGiftType.Some? && r.winningGiftType.value in Ids(available)
            && r.sequence.Some? && |r.sequence.value| == 41 && r.sequence.value[20] == r.winningGiftType.value
            && r.winningGiftId == Some(IntToString(nowMs)))
  {
    var available := AvailableGifts(gifts, s, bet);
    if available != [] {
      if Wheel(s, bet) != [] || AllPrintable(gifts, true) {
        OfferPrintable(gifts, s, bet);
      }
      SelectThrows(available, true, rng(k));
      DemoDrawShape(available, rng, k, nowMs);
      assert DemoResult(gifts, s, bet, rng, k, nowMs) == DemoDraw(available, rng, k, nowMs);
    }
  }

  /** The demo result's shape, as DemoResultShape states it. */
  predicate DemoShaped(r: GameResult, available: Catalogue, nowMs: int)
  {
    r.success && r.winningGiftType.Some? && r.winningGiftType.value in Ids(available)
    && r.sequence.Some? && |r.sequence.value| == 41 && r.sequence.value[20] == r.winningGiftType.value
    && r.winningGiftId == Some(IntToString(nowMs))
  }

  lemma DemoDrawShape(available: Catalogue, rng: Rng, k: nat, nowMs: int)
    requires available != []
    ensures var d := DemoDraw(available, rng, k, nowMs);
      (d.Throws? <==> Select(available, true, rng(k)).Throws?)
      && (d.Ok? ==> DemoShaped(d.value.0, available, nowMs))
  {
    var sel := Select(available, true, rng(k));
    if sel.Ok? {
      var picked := sel.value;
      var j :| 0 <= j < |available| && available[j] == picked;
      IdsListed(available, j);
      var next := k + 1;
      DemoAroundShape(available, picked.0, picked.1, rng, next, nowMs);
    }
  }

  lemma DemoAroundShape(available: Catalogue, id: string, g: Gift, rng: Rng, k: nat, nowMs: int)
    requires available != [] && id in Ids(available)
    ensures var d := DemoAround(available, id, g, rng, k, nowMs);
      d.Ok? && DemoShaped(d.value.0, available, nowMs)
  {
    DefaultSequence(available, id, rng, k);
  }

  /**
   * Every chance on offer is a number when the bet has a wheel (the
   * normalised copies) or when every chance in the catalogue is one (the
   * aliased copies keep their chances).
   */
  lemma OfferPrintable(gifts: Catalogue, s: Settings, bet: string)
    requires Wheel(s, bet) != [] || AllPrintable(gifts, true)
    ensures var available := AvailableGifts(gifts, s, bet);
      AllPrintable(available, true) && NoNull(available, true)
  {
    var wheel := Wheel(s, bet);
    if wheel != [] {
      WheelChancesNumeric(gifts, wheel, s, bet);
      var available := OnWheel(gifts, wheel, s, bet);
      forall i | 0 <= i < |available|
        ensures OfTypeNumber(ChanceOf(available[i].1, true)) && ChanceOf(available[i].1, true) != Some(Null)
      {
        assert available[i] in available;
      }
    } else {
      var available := AliasAll(gifts);
      forall i | 0 <= i < |available|
        ensures available[i].1.chance == gifts[i].1.chance
      {
        assert available[i].1 == Aliased(gifts[i].1);
      }
    }
  }

  /** The offer for a bet with a wheel gives every gift a chance that is a number other than NaN. */
  lemma {:induction false} WheelChancesNumeric(gifts: Catalogue, wheel: seq<string>, s: Settings, bet: string)
    ensures forall e :: e in OnWheel(gifts, wheel, s, bet) ==> IsNumber(e.1.chance)
    decreases |gifts|
  {
    if gifts != [] {
      WheelChancesNumeric(gifts[1..], wheel, s, bet);
      var (id, g) := gifts[0];
      if id in wheel {
        NormalizedChance(g, BetOverride(s, bet, id));
      }
    }
  }

  // ---------------------------------------------------------------------
  // validateAndFixResult.

  /** The outcome of a repair: the result, the gifts dictionary after the write to gift_id, and the next unused draw. */
  datatype Repair = Repair(result: Option<GameResult>, gifts: Catalogue, next: nat)

  /** The gift object the repair writes gift_id on, when it is the dictionary's own entry. */
  function SetGiftId(gifts: Catalogue, id: string, v: string): (r: Catalogue)
    ensures |r| == |gifts| && Ids(r) == Ids(gifts)
  {
    if gifts == [] then []
    else if gifts[0].0 == id then [(id, gifts[0].1.(giftId := Some(v)))] + gifts[1..]
    else [gifts[0]] + SetGiftId(gifts[1..], id, v)
  }

  /** `sequence[floor(len/2)] === type`. */
  predicate Centred(sequence: seq<string>, t: string)
  {
    |sequence| > 0 && sequence[|sequence| / 2] == t
  }

  /** The sequence as received when it is a non-empty array, else one generated around `wtype`; with the next unused draw. */
  function EnsureSequence(sequence: Option<seq<string>>, available: Catalogue, wtype: Option<string>, rng: Rng, k: nat)
    : (r: Result<(seq<string>, nat)>)
    ensures sequence.Some? && sequence.value != [] ==> r == Ok((sequence.value, k))
  {
    if sequence.Some? && sequence.value != [] then Ok((sequence.value, k))
    else
      // Without a usable type the generated sequence is always replaced later.
      match Sequence(available, if wtype.Some? then wtype.value else "", DefaultSequenceLength, rng, k)
      case Throws(e) => Throws(e)
      case Ok(sq) => Ok((sq, k + SequenceDraws(DefaultSequenceLength)))
  }

  /** No usable winner: draw one with the displayed chances and build a sequence around it. */
  function Redraw(available: Catalogue, rng: Rng, k: nat): Result<(string, Gift, seq<string>, nat)>
  {
    match Select(available, true, rng(k))
    case Throws(e) => Throws(e)
    case Ok((id, g)) =>
      match Sequence(available, id, DefaultSequenceLength, rng, k + 1)
      case Throws(e) => Throws(e)
      case Ok(sq) => Ok((id, g, sq, k + 1 + SequenceDraws(DefaultSequenceLength)))
  }

  /** The sequence kept when `t` is in its middle, else regenerated around `t`. */
  function Recentred(available: Catalogue, t: string, sq: seq<string>, rng: Rng, k: nat): (r: Result<(seq<string>, nat)>)
    ensures r.Ok? ==> Centred(r.value.0, t)
    ensures Centred(sq, t) ==> r == Ok((sq, k))
  {
    if Centred(sq, t) then Ok((sq, k))
    else
      match Sequence(available, t, DefaultSequenceLength, rng, k)
      case Throws(e) => Throws(e)
      case Ok(sq') => Ok((sq', k + SequenceDraws(DefaultSequenceLength)))
  }

  /**
   * The last steps of the repair: the winner is put in the middle, gift_id
   * is written on the gift object (on the dictionary's own entry when the
   * gift was looked up there) and the result is assembled.
   */
  function Finish(res: GameResult, gifts: Catalogue, available: Catalogue, wid: Option<string>, t: string, g: Gift,
                  lookedUp: bool, sq: seq<string>, rng: Rng, k: nat): (r: Result<Repair>)
    ensures r.Ok? ==> var out := r.value.result;
      out.Some? && out.value.sequence.Some? && Centred(out.value.sequence.value, t)
      && out.value.winningGiftType == Some(t) && out.value.winningGiftId == wid && out.value.winningGift.Some?
      && (t != "" ==> out.value.winningGift.value.giftId == Some(t))
      && out.value.success == res.success
    ensures Centred(sq, t) && !lookedUp && g.giftId == Some(t) && res.sequence == Some(sq)
            && res.winningGiftId == wid && res.winningGiftType == Some(t) && res.winningGift == Some(g)
            ==> r == Ok(Repair(Some(res), gifts, k))
  {
    match Recentred(available, t, sq, rng, k)
    case Throws(e) => Throws(e)
    case Ok((sq', k')) =>
      var gifts' := if lookedUp && t != "" then SetGiftId(gifts, t, t) else gifts;
      var g' := if t != "" then g.(giftId := Some(t)) else g;
      var shown := g'.(giftId := Or(g'.giftId, Some(t)));
      Ok(Repair(Some(res.(sequence := Some(sq'), winningGiftId := wid, winningGiftType := Some(t), winningGift := Some(shown))),
                gifts', k'))
  }

  /** validateAndFixResult(result, gifts, bet) with draws from k. */
  function ValidateAndFixResult(result: Option<GameResult>, gifts: Catalogue, s: Settings, bet: string, rng: Rng, k: nat)
    : Result<Repair>
  {
    if result.None? then Ok(Repair(None, gifts, k))
    else
      var res := result.value;
      var available := AvailableGifts(gifts, s, bet);
      var wtype := Or(res.winningGiftType, res.winningGiftId);
      match EnsureSequence(res.sequence, available, wtype, rng, k)
      case Throws(e) => Throws(e)
      case Ok((sq, k1)) =>
        var lookedUp := res.winningGift.None? && Truthy(wtype);
        var gift := if lookedUp then Find(gifts, wtype.value) else res.winningGift;
        if Truthy(wtype) && gift.Some? then
          Finish(res, gifts, available, res.winningGiftId, wtype.value, gift.value, lookedUp, sq, rng, k1)
        else
          match Redraw(available, rng, k1)
          case Throws(e) => Throws(e)
          case Ok((id, g, sq', k2)) => Finish(res, gifts, available, Some(id), id, g, false, sq', rng, k2)
  }

  /** No result stays no result. */
  lemma ValidateNull(gifts: Catalogue, s: Settings, bet: string, rng: Rng, k: nat)
    ensures ValidateAndFixResult(None, gifts, s, bet, rng, k) == Ok(Repair(None, gifts, k))
  {
  }

  /**
   * A repaired result always has its type in the middle of a non-empty
   * sequence and a gift object, whose gift_id is the type unless the type
   * is the empty string (which is falsy and so is not written).
   */
  lemma RepairCentresWinner(res: GameResult, gifts: Catalogue, s: Settings, bet: string, rng: Rng, k: nat)
    requires ValidateAndFixResult(Some(res), gifts, s, bet, rng, k).Ok?
    ensures var r := ValidateAndFixResult(Some(res), gifts, s, bet, rng, k).value.result;
      r.Some? && r.value.sequence.Some? && r.value.winningGiftType.Some?
      && Centred(r.value.sequence.value, r.value.winningGiftType.value)
      && r.value.winningGift.Some?
      && (r.value.winningGiftType != Some("") ==> r.value.winningGift.value.giftId == r.value.winningGiftType)
      && r.value.success == res.success
  {
  }

  /**
   * Repairing a repaired result changes nothing: same sequence, id, type
   * and gift, no draw consumed and the dictionary left as it is. (A gift
   * whose id is the empty string is redrawn every time, since that id is
   * falsy.)
   */
  lemma RepairIdempotent(res: GameResult, gifts: Catalogue, s: Settings, bet: string, rng: Rng, k: nat, rng2: Rng, k2: nat)
    requires ValidateAndFixResult(Some(res), gifts, s, bet, rng, k).Ok?
    requires ValidateAndFixResult(Some(res), gifts, s, bet, rng, k).value.result.value.winningGiftType != Some("")
    ensures var once := ValidateAndFixResult(Some(res), gifts, s, bet, rng, k).value;
      ValidateAndFixResult(once.result, once.gifts, s, bet, rng2, k2) == Ok(Repair(once.result, once.gifts, k2))
  {
    RepairCentresWinner(res, gifts, s, bet, rng, k);
    var once := ValidateAndFixResult(Some(res), gifts, s, bet, rng, k).value;
    var r := once.result.value;
    var t := r.winningGiftType.value;
    assert Or(r.winningGiftType, r.winningGiftId) == Some(t);
    assert EnsureSequence(r.sequence, AvailableGifts(once.gifts, s, bet), Some(t), rng2, k2) == Ok((r.sequence.value, k2));
  }
}

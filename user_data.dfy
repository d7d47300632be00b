// The user-data helpers the spin relies on (user-data.js): bet costs, the
// balance the page shows, whether a spin may start, the charge for a
// spin, the level data, the request headers, the top-up amount guard and
// the rule that restarts a pending spin after a top-up.
module UserData {
  import opened Js
  import Experience

  /** The four bet types. */
  datatype Bet = Low | Medium | High | Ultra

  /** betCosts. */
  function Cost(b: Bet): nat
  {
    match b
    case Low => 25
    case Medium => 50
    case High => 100
    case Ultra => 250
  }

  /** The key of a bet in betCosts and in the settings. */
  function BetName(b: Bet): string
  {
    match b
    case Low => "low"
    case Medium => "medium"
    case High => "high"
    case Ultra => "ultra"
  }

  /** Dearer bets cost more, and every bet costs something. */
  lemma CostsRise()
    ensures Cost(Low) == 25 && Cost(Medium) == 50 && Cost(High) == 100 && Cost(Ultra) == 250
    ensures 0 < Cost(Low) < Cost(Medium) < Cost(High) < Cost(Ultra)
    ensures forall a, b :: BetName(a) == BetName(b) ==> a == b
  {
  }

  /** The balance element of the page: absent, or its data-real-value attribute and its text. */
  datatype BalanceElement = NoElement | Element(realValue: Option<string>, text: string)

  /** `text.replace(/\D/g, '')`: the digits of the text, in order. */
  function DigitsOf(text: string): (d: string)
    ensures AllDigits(d) && |d| <= |text|
    ensures forall c :: c in text && IsDigit(c) ==> c in d
  {
    if text == [] then []
    else (if IsDigit(text[0]) then [text[0]] else []) + DigitsOf(text[1..])
  }

  /** Stripping non-digits works piece by piece: the digits of `a + b` are those of `a`, then those of `b`. */
  lemma {:induction false} DigitsOfAppend(a: string, b: string)
    ensures DigitsOf(a + b) == DigitsOf(a) + DigitsOf(b)
    decreases |a|
  {
    if a != [] {
      var ab := a + b;
      assert ab[0] == a[0] && ab[1..] == a[1..] + b;
      DigitsOfAppend(a[1..], b);
      var h: string := if IsDigit(a[0]) then [a[0]] else [];
      assert DigitsOf(ab) == h + DigitsOf(a[1..] + b);
      assert DigitsOf(a) == h + DigitsOf(a[1..]);
    } else {
      assert a + b == b;
    }
  }

  /** A text made only of digits is left as it is. */
  lemma {:induction false} DigitsOfDigits(t: string)
    requires AllDigits(t)
    ensures DigitsOf(t) == t
    decreases |t|
  {
    if t != [] {
      DigitsOfDigits(t[1..]);
    }
  }

  /** A text without a digit leaves nothing. */
  lemma {:induction false} DigitsOfNone(t: string)
    requires forall i :: 0 <= i < |t| ==> !IsDigit(t[i])
    ensures DigitsOf(t) == []
    decreases |t|
  {
    if t != [] {
      DigitsOfNone(t[1..]);
    }
  }

  /**
   * getActualBalance: 0 without the element; else parseInt of the
   * data-real-value attribute when there is one, else parseInt of the
   * digits of the text. None stands for NaN.
   */
  function ActualBalance(e: BalanceElement): (r: Option<int>)
  {
    match e
    case NoElement => Some(0)
    case Element(Some(v), _) => ParseInt(v, 0)
    case Element(None, text) => ParseInt(DigitsOf(text), 0)
  }

  /**
   * Without the attribute, the balance is the number the digits of the text
   * spell, and NaN when the text holds no digit: "1 250" reads as 1250 and
   * a sign is lost.
   */
  lemma BalanceFromText(text: string)
    ensures ActualBalance(Element(None, text))
      == if DigitsOf(text) == [] then None else Some(DigitsValue(DigitsOf(text), 10) as int)
  {
    if DigitsOf(text) != [] {
      DigitsParse(DigitsOf(text), 0);
    }
  }

  /** A balance shown with a thousands space, "1 250", reads as 1250. */
  lemma SpacedBalance()
    ensures DigitsOf("1 250") == "1250"
    ensures ActualBalance(Element(None, "1 250")) == Some(1250)
  {
    SpacedDigits();
    BalanceFromText("1 250");
    FourDigitValue();
  }

  lemma SpacedDigits()
    ensures DigitsOf("1 250") == "1250"
  {
    var a: string, b: string := "1", "250";
    SpacedGroups(a, b);
    SpacedLiterals(a, b);
  }

  lemma SpacedLiterals(a: string, b: string)
    requires a == "1" && b == "250"
    ensures a + [' '] + b == "1 250" && a + b == "1250"
  {
  }

  /** Digit groups separated by a space read as the digits run together. */
  lemma SpacedGroups(a: string, b: string)
    requires AllDigits(a) && AllDigits(b)
    ensures DigitsOf(a + [' '] + b) == a + b
  {
    var head := a + [' '];
    SpaceDropped(a, head);
    DigitsOfAppend(head, b);
    DigitsOfDigits(b);
  }

  lemma SpaceDropped(a: string, head: string)
    requires AllDigits(a) && head == a + [' ']
    ensures DigitsOf(head) == a
  {
    DigitsOfAppend(a, [' ']);
    DigitsOfDigits(a);
    DigitsOfNone([' ']);
  }

  lemma FourDigitValue()
    ensures DigitsValue("1250", 10) == 1250
  {
    var d: string := "1250";
    assert d[..3] == "125" && d[..2] == "12" && d[..1] == "1";
    assert DigitsValue("1", 10) == 1;
    assert DigitsValue("12", 10) == 12;
    assert DigitsValue("125", 10) == 125;
  }

  /** Whether a spin may start: yes, no because one is running, or no because crystals are missing. */
  datatype SpinGate = Allowed | Busy | ShortOf(missing: int)

  /**
   * canStartSpin, without the top-up dialog it opens. A NaN balance fails
   * the `balance < cost` test and so lets the spin start.
   */
  function CanStartSpin(isSpinning: bool, demoMode: bool, actual: Option<int>, bet: Bet): (g: SpinGate)
    ensures g == Allowed <==> !isSpinning && (demoMode || actual.None? || actual.value >= Cost(bet))
    ensures g == Busy <==> isSpinning
    ensures g.ShortOf? ==> actual.Some? && 0 < g.missing <= Cost(bet) - actual.value
  {
    if isSpinning then Busy
    else if !demoMode && actual.Some? && actual.value < Cost(bet) then ShortOf(Cost(bet) - actual.value)
    else Allowed
  }

  /** The fields of userData a spin reads and writes. */
  datatype Stats = Stats(balance: int, spinsCount: int, exp: Option<int>, fastPlay: bool)

  /**
   * updateUserStatsForSpin: nothing in demo mode; otherwise one more spin
   * and the bet's cost taken from the balance. The cost charged is returned.
   */
  function ChargeSpin(u: Stats, demoMode: bool, bet: Bet): (r: (Stats, nat))
    ensures demoMode ==> r == (u, 0)
    ensures !demoMode ==> r.1 == Cost(bet) > 0 && r.0.balance + r.1 == u.balance
    ensures r.0.exp == u.exp && r.0.fastPlay == u.fastPlay
    ensures r.0.spinsCount == u.spinsCount + (if demoMode then 0 else 1)
  {
    if demoMode then (u, 0)
    else (u.(spinsCount := u.spinsCount + 1, balance := u.balance - Cost(bet)), Cost(bet))
  }

  /** The userData object, as far as the spin changes it. */
  class UserRecord {
    var balance: int
    var spinsCount: int
    var exp: Option<int>
    var fastPlay: bool

    function Model(): Stats
      reads this
    {
      Stats(balance, spinsCount, exp, fastPlay)
    }

    constructor (u: Stats)
      ensures Model() == u
    {
      balance, spinsCount, exp, fastPlay := u.balance, u.spinsCount, u.exp, u.fastPlay;
    }

    /** updateUserStatsForSpin(userData, demoMode, bet). */
    method UpdateUserStatsForSpin(demoMode: bool, bet: Bet) returns (cost: nat)
      modifies this
      ensures (Model(), cost) == ChargeSpin(old(Model()), demoMode, bet)
    {
      if demoMode {
        return 0;
      }
      spinsCount := spinsCount + 1;
      cost := Cost(bet);
      balance := balance - cost;
    }

    /** Any userData.balance += amount. */
    method Credit(amount: int)
      modifies this
      ensures Model() == old(Model()).(balance := old(balance) + amount)
    {
      balance := balance + amount;
    }

    /** userData.exp = value. */
    method SetExp(value: Option<int>)
      modifies this
      ensures Model() == old(Model()).(exp := value)
    {
      exp := value;
    }
  }

  /** getUserLevelData: the level data of `userData.exp || 0`, by the same loop as calculateLevelData. */
  method GetUserLevelData(exp: Option<int>) returns (d: Experience.LevelData)
    ensures d == Experience.LevelOf(if exp.Some? then exp.value else 0)
    ensures d.level >= 1 && d.totalExpNeeded + d.currentExp == (if exp.Some? && exp.value > 0 then exp.value else 0)
  {
    var e := if exp.Some? then exp.value else 0;
    d := Experience.CalculateLevelData(e);
  }

  /** createTelegramHeaders: JSON content, and the init data when there is some. */
  function TelegramHeaders(initData: Option<string>): (h: map<string, string>)
    ensures "Content-Type" in h && h["Content-Type"] == "application/json"
    ensures "X-Telegram-Init-Data" in h <==> Truthy(initData)
    ensures "X-Telegram-Init-Data" in h ==> h["X-Telegram-Init-Data"] == initData.value
    ensures h.Keys <= {"Content-Type", "X-Telegram-Init-Data"}
  {
    var base := map["Content-Type" := "application/json"];
    if Truthy(initData) then base["X-Telegram-Init-Data" := initData.value] else base
  }

  const MaxTopUp := 10000

  /** The amount guard of buyStars: parseInt(amount, 10), refused when NaN, not positive or above 10000. */
  function TopUpAmount(amount: string): (r: Option<int>)
    ensures r.Some? ==> 1 <= r.value <= MaxTopUp && ParseInt(amount, 10) == r
  {
    match ParseInt(amount, 10)
    case None => None
    case Some(n) => if n <= 0 || n > MaxTopUp then None else Some(n)
  }

  /** Every whole amount from 1 to 10000, written out, passes the guard unchanged; no other whole amount does. */
  lemma TopUpAccepts(n: int)
    ensures TopUpAmount(IntToString(n)) == (if 1 <= n <= MaxTopUp then Some(n) else None)
  {
    ParseIntOfIntToString(n);
  }

  /**
   * The auto-start rule after a successful top-up: with the server's
   * auto_start_lottery flag and a pending bet, the spin starts when the new
   * balance covers that bet; the pending bet is dropped either way.
   * Returns whether to call window.spinLottery and the pending bet after.
   */
  function AutoStart(autoStartFlag: bool, pending: Option<Bet>, newBalance: int): (r: (bool, Option<Bet>))
    ensures r.0 ==> autoStartFlag && pending.Some? && newBalance >= Cost(pending.value)
    ensures autoStartFlag && pending.Some? && newBalance >= Cost(pending.value) ==> r.0
    ensures r.1 == if autoStartFlag then None else pending
  {
    if !autoStartFlag || pending.None? then (false, if autoStartFlag then None else pending)
    else (newBalance >= Cost(pending.value), None)
  }
}

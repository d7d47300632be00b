// The reel animation (animations.js): the module-level animationState
// (the pending completion timer, the skip flag and its time), the reel
// container's items and saved state, and the browser's one-shot timers.
// Positions, transitions and markup are not modelled; the 6500 ms timer is
// an entry in `timers` that fires only when the browser runs it (an
// explicit event), and clearTimeout removes it.
module Animations {
  import opened Js
  import GL = GameLogic

  const SpinDelayMs := 6500
  const IdleBaseCount := 10

  /** What the completion timer's callback closes over. */
  datatype Completion = Completion(index: nat, giftId: Option<string>, giftType: string, gift: GL.Gift)

  /**
   * animationState (spinTimer, skipTriggered, skipTimestamp), the
   * completion callbacks the browser still holds, by handle, and the next
   * handle setTimeout returns. Handles are positive, hence truthy.
   */
  datatype AnimState = AnimState(
    spinTimer: Option<nat>,
    skipTriggered: bool,
    skipTimestamp: Option<int>,
    timers: map<nat, Completion>,
    nextHandle: nat)

  /** The state when the module is loaded. */
  const Initial := AnimState(None, false, None, map[], 1)

  /**
   * The invariant every event keeps: a pending completion timer is the one
   * spinTimer names, and no skip has happened since it was set.
   */
  predicate Sound(a: AnimState)
  {
    forall h :: h in a.timers ==> a.spinTimer == Some(h) && !a.skipTriggered
  }

  /** One element of the reel: the gift id it shows, its star price, and whether it carries the 'winning' class. */
  datatype ReelItem = ReelItem(giftId: string, price: int, winning: bool)

  /**
   * The reel container: its items, whether dataset.lastPosition is set,
   * dataset.lastContent (the saved items), the 'idle-animation' class and
   * the 'animation-completed' class.
   */
  datatype ReelState = ReelState(
    items: seq<ReelItem>,
    lastPosition: bool,
    lastContent: Option<seq<ReelItem>>,
    idle: bool,
    completed: bool)

  /** A call of the finish callback passed to animateLottery. */
  datatype Callback = NoCallback | Finished(success: bool, giftId: Option<string>, gift: Option<GL.Gift>)

  /** Firing a handle: nothing when it is not pending, else its callback's call, if any. */
  datatype Firing = NotScheduled | Ran(callback: Callback)

  /** `gift.star_count || 0`. */
  function Price(g: GL.Gift): int
  {
    if g.starCount.Some? then g.starCount.value else 0
  }

  // ---------------------------------------------------------------------
  // createLotteryElements and highlightWinningItem.

  /**
   * The items createLotteryElements appends for sequence[..n]: a gift that
   * is not in the catalogue is skipped, and the entry at index
   * floor(len/2) of the sequence is marked winning.
   */
  function ElementsUpTo(sequence: seq<string>, gifts: GL.Catalogue, n: nat): seq<ReelItem>
    requires n <= |sequence|
  {
    if n == 0 then []
    else
      ElementsUpTo(sequence, gifts, n - 1)
      + (match GL.Find(gifts, sequence[n - 1])
         case None => []
         case Some(g) => [ReelItem(sequence[n - 1], Price(g), n - 1 == |sequence| / 2)])
  }

  function LotteryElements(sequence: seq<string>, gifts: GL.Catalogue): seq<ReelItem>
  {
    ElementsUpTo(sequence, gifts, |sequence|)
  }

  /** highlightWinningItem: the element at `index`, if there is one, gets the 'winning' class. */
  function Highlight(items: seq<ReelItem>, index: nat): (r: seq<ReelItem>)
    ensures |r| == |items|
    ensures index < |items| ==> r[index].winning && r[index].giftId == items[index].giftId
    ensures forall i :: 0 <= i < |items| && i != index ==> r[i] == items[i]
  {
    if index < |items| then items[index := items[index].(winning := true)] else items
  }

  lemma {:induction false} ElementsAligned(sequence: seq<string>, gifts: GL.Catalogue, n: nat)
    requires n <= |sequence|
    requires forall i :: 0 <= i < |sequence| ==> sequence[i] in GL.Ids(gifts)
    ensures var items := ElementsUpTo(sequence, gifts, n);
      |items| == n
      && forall i :: 0 <= i < n ==> items[i].giftId == sequence[i] && (items[i].winning <==> i == |sequence| / 2)
  {
    if n > 0 {
      ElementsAligned(sequence, gifts, n - 1);
    }
  }

  /**
   * When every entry of the sequence is a known gift, the reel has one item
   * per entry, in order, and exactly the item at floor(len/2), the winner
   * of a centred sequence, is marked winning.
   */
  lemma AlignedReel(sequence: seq<string>, gifts: GL.Catalogue)
    requires forall i :: 0 <= i < |sequence| ==> sequence[i] in GL.Ids(gifts)
    ensures var items := LotteryElements(sequence, gifts);
      |items| == |sequence|
      && (forall i :: 0 <= i < |items| ==> items[i].giftId == sequence[i] && (items[i].winning <==> i == |sequence| / 2))
  {
    ElementsAligned(sequence, gifts, |sequence|);
  }

  /** A plain gift with no fields, for examples. */
  const Blank := GL.Gift(None, None, None, None, None, None, None, None, None, None)

  /**
   * An entry before the centre that names a gift missing from the
   * catalogue shifts every later item: with gifts w and y and the sequence
   * [x, w, y] the reel stops on, and highlights, the y item although the
   * winner is w.
   */
  lemma MissingGiftShiftsReel()
    ensures var sequence := ["x", "w", "y"];
      var items := LotteryElements(sequence, [("w", Blank), ("y", Blank)]);
      |items| == 2 && sequence[|sequence| / 2] == "w"
      && items[|sequence| / 2].giftId == "y" && !items[|sequence| / 2].winning
      && Highlight(items, |sequence| / 2)[|sequence| / 2].giftId == "y"
  {
    var gifts := [("w", Blank), ("y", Blank)];
    assert GL.Find(gifts, "x") == None;
    assert GL.Find(gifts, "w") == Some(Blank);
    assert GL.Find(gifts, "y") == Some(Blank);
    var sequence := ["x", "w", "y"];
    assert ElementsUpTo(sequence, gifts, 1) == [];
    assert ElementsUpTo(sequence, gifts, 2) == [ReelItem("w", 0, true)];
    assert ElementsUpTo(sequence, gifts, 3) == [ReelItem("w", 0, true), ReelItem("y", 0, false)];
  }

  /**
   * The intended reel: a gift missing from the catalogue still takes its
   * place (shown without a price), so the item at floor(len/2) is the
   * winner.
   */
  function PlaceholderElementsUpTo(sequence: seq<string>, gifts: GL.Catalogue, n: nat): (items: seq<ReelItem>)
    requires n <= |sequence|
    ensures |items| == n
    ensures forall i :: 0 <= i < n ==> items[i].giftId == sequence[i] && (items[i].winning <==> i == |sequence| / 2)
  {
    if n == 0 then []
    else
      var price := match GL.Find(gifts, sequence[n - 1]) case None => 0 case Some(g) => Price(g);
      PlaceholderElementsUpTo(sequence, gifts, n - 1) + [ReelItem(sequence[n - 1], price, n - 1 == |sequence| / 2)]
  }

  /** With placeholders the highlighted item of a centred sequence is always the winner. */
  lemma PlaceholderReelCentred(sequence: seq<string>, gifts: GL.Catalogue, t: string)
    requires GL.Centred(sequence, t)
    ensures var items := Highlight(PlaceholderElementsUpTo(sequence, gifts, |sequence|), |sequence| / 2);
      items[|sequence| / 2].giftId == t && items[|sequence| / 2].winning
      && forall i :: 0 <= i < |items| && items[i].winning ==> i == |sequence| / 2
  {
  }

  // ---------------------------------------------------------------------
  // The events on animationState and the reel.

  /** `if (spinTimer) { clearTimeout(spinTimer); spinTimer = null; }` */
  function Cancelled(a: AnimState): (r: AnimState)
    ensures Sound(a) ==> r.timers == map[]
    ensures r.spinTimer == None
  {
    if a.spinTimer.Some? then a.(timers := a.timers - {a.spinTimer.value}, spinTimer := None) else a
  }

  /**
   * animateLottery(result, gameState, lotteryItems, finishCallback): stop
   * the idle animation, cancel the pending timer, clear the skip flag; with
   * a sequence, a truthy type and a gift, rebuild the reel and (unless a
   * skip is already flagged) set the 6500 ms completion timer; without
   * them, call finishCallback(false) at once.
   */
  function Animate(a: AnimState, r: ReelState, sequence: Option<seq<string>>, giftId: Option<string>,
                   giftType: Option<string>, gift: Option<GL.Gift>, gifts: GL.Catalogue)
    : (AnimState, ReelState, Callback)
  {
    var r1 := r.(idle := false);
    var a1 := Cancelled(a).(skipTriggered := false, skipTimestamp := None);
    if sequence.None? || !Truthy(giftType) || gift.None? then (a1, r1, Finished(false, None, None))
    else
      var r2 := r1.(lastPosition := false, lastContent := None, completed := false,
                    items := LotteryElements(sequence.value, gifts));
      if a1.skipTriggered then (a1, r2, NoCallback)
      else
        var h := a1.nextHandle;
        var c := Completion(|sequence.value| / 2, giftId, giftType.value, gift.value);
        (a1.(spinTimer := Some(h), timers := a1.timers[h := c], nextHandle := h + 1), r2, NoCallback)
  }

  /** markAnimationSkipped at time `now`. */
  function Skip(a: AnimState, now: int): AnimState
  {
    Cancelled(a).(skipTriggered := true, skipTimestamp := Some(now))
  }

  /** handleSpinCompletion's effect on the reel: highlight, then save position and content. */
  function Completed(r: ReelState, index: nat): ReelState
  {
    var items := Highlight(r.items, index);
    r.(items := items, lastPosition := true, lastContent := Some(items))
  }

  /**
   * The browser runs timer `h`, up to the call of finishCallback; the
   * `spinTimer = null` that follows the call is FireEnd.
   */
  function FireBegin(a: AnimState, r: ReelState, h: nat): (AnimState, ReelState, Firing)
  {
    if h !in a.timers then (a, r, NotScheduled)
    else
      var c := a.timers[h];
      var a1 := a.(timers := a.timers - {h});
      if !a1.skipTriggered then (a1, Completed(r, c.index), Ran(Finished(true, c.giftId, Some(c.gift))))
      else (a1, r, Ran(NoCallback))
  }

  /** The last statement of the timer callback. */
  function FireEnd(a: AnimState): AnimState
  {
    a.(spinTimer := None)
  }

  /** positionLotteryForWinningItem: with a sequence, highlight floor(len/2), save the state and mark the reel completed. */
  function Positioned(r: ReelState, sequence: Option<seq<string>>): ReelState
  {
    if sequence.None? then r
    else
      var items := Highlight(r.items, |sequence.value| / 2);
      r.(items := items, lastPosition := true, lastContent := Some(items), completed := true)
  }

  /** Both data attributes are set, the content non-empty. */
  predicate Saved(r: ReelState)
  {
    r.lastPosition && r.lastContent.Some? && r.lastContent.value != []
  }

  /** The first `n` of the ten idle picks drawn with draws k, k+1, ... */
  function IdlePicks(available: GL.Catalogue, rng: GL.Rng, k: nat, n: nat): (s: seq<ReelItem>)
    requires available != []
    ensures |s| == n
    ensures forall i :: 0 <= i < n ==>
      var (id, g) := available[GL.Index(rng(k + i), |available|)]; s[i] == ReelItem(id, Price(g), false)
  {
    if n == 0 then []
    else
      var (id, g) := available[GL.Index(rng(k + n - 1), |available|)];
      IdlePicks(available, rng, k, n - 1) + [ReelItem(id, Price(g), false)]
  }

  /** Every idle pick is a gift of the list, not marked winning. */
  lemma IdlePicksListed(available: GL.Catalogue, rng: GL.Rng, k: nat, n: nat)
    requires available != []
    ensures forall i :: 0 <= i < n ==>
      IdlePicks(available, rng, k, n)[i].giftId in GL.Ids(available) && !IdlePicks(available, rng, k, n)[i].winning
  {
    forall i | 0 <= i < n
      ensures IdlePicks(available, rng, k, n)[i].giftId in GL.Ids(available)
    {
      GL.IdsListed(available, GL.Index(rng(k + i), |available|));
    }
  }

  /** createInfiniteScrollElements: ten random picks, twice; nothing for an empty list. */
  function IdleItems(available: GL.Catalogue, rng: GL.Rng, k: nat): seq<ReelItem>
  {
    if available == [] then [] else IdlePicks(available, rng, k, IdleBaseCount) + IdlePicks(available, rng, k, IdleBaseCount)
  }

  /** How many draws createInfiniteScrollElements consumes. */
  function IdleDraws(available: GL.Catalogue): nat
  {
    if available == [] then 0 else IdleBaseCount
  }

  /**
   * initLotteryDisplay(lotteryItems, available, force): with a saved state
   * and no force, only recentre (restoring the saved content into an empty
   * reel); otherwise drop the saved state when forced, rebuild the idle
   * reel and start the idle animation. Returns the next unused draw.
   */
  function InitDisplay(r: ReelState, available: GL.Catalogue, force: bool, rng: GL.Rng, k: nat): (ReelState, nat)
  {
    if !force && Saved(r) then
      (if r.items == [] then r.(items := r.lastContent.value) else r, k)
    else
      var r1 := if force then r.(lastPosition := false, lastContent := None) else r;
      (r1.(items := IdleItems(available, rng, k), idle := true), k + IdleDraws(available))
  }

  // ---------------------------------------------------------------------
  // What the events guarantee.

  /** animationState keeps its invariant under every event. */
  lemma EventsKeepSound(a: AnimState, r: ReelState, sequence: Option<seq<string>>, giftId: Option<string>,
                        giftType: Option<string>, gift: Option<GL.Gift>, gifts: GL.Catalogue, now: int, h: nat)
    requires Sound(a)
    ensures Sound(Animate(a, r, sequence, giftId, giftType, gift, gifts).0)
    ensures Sound(Skip(a, now))
    ensures Sound(FireBegin(a, r, h).0)
    ensures FireBegin(a, r, h).2.Ran? ==> Sound(FireEnd(FireBegin(a, r, h).0))
  {
    if h in a.timers {
      assert a.spinTimer == Some(h);
    }
  }

  /** At most one completion timer is ever pending. */
  lemma OneTimerAtMost(a: AnimState)
    requires Sound(a)
    ensures |a.timers.Keys| <= 1
    ensures a.timers.Keys != {} ==> a.spinTimer.Some? && a.timers.Keys == {a.spinTimer.value}
  {
    if a.spinTimer.Some? && a.spinTimer.value in a.timers {
      assert a.timers.Keys == {a.spinTimer.value};
    } else {
      assert a.timers.Keys == {};
    }
  }

  /**
   * A pending timer always sees no skip: firing it calls
   * finishCallback(true, id, gift) and highlights its index; the 'skipped'
   * branch of the callback is never taken.
   */
  lemma PendingTimerCompletes(a: AnimState, r: ReelState, h: nat)
    requires Sound(a) && h in a.timers
    ensures var c := a.timers[h];
      FireBegin(a, r, h).2 == Ran(Finished(true, c.giftId, Some(c.gift)))
      && FireBegin(a, r, h).1 == Completed(r, c.index)
  {
  }

  /** After a skip no timer fires: the completion callback cannot follow a skip. */
  lemma SkipSilencesTimer(a: AnimState, r: ReelState, now: int, h: nat)
    requires Sound(a)
    ensures FireBegin(Skip(a, now), r, h).2 == NotScheduled
    ensures Skip(a, now).skipTriggered && Skip(a, now).spinTimer == None && Skip(a, now).skipTimestamp == Some(now)
  {
  }

  /**
   * A completion runs at most once: once a timer has fired, whether or not
   * the callback got as far as `spinTimer = null`, no timer is pending.
   */
  lemma CompletesOnce(a: AnimState, r: ReelState, h: nat, r2: ReelState, h2: nat)
    requires Sound(a) && FireBegin(a, r, h).2.Ran?
    ensures FireBegin(FireBegin(a, r, h).0, r2, h2).2 == NotScheduled
    ensures FireBegin(FireEnd(FireBegin(a, r, h).0), r2, h2).2 == NotScheduled
  {
    EventsKeepSound(a, r, None, None, None, None, [], 0, h);
  }

  /**
   * With a sequence, a truthy type and a gift, animateLottery cancels the
   * old timer, clears the skip flag and leaves exactly one pending timer,
   * which completes with (true, id, gift) on the reel built from the
   * sequence, highlighting index floor(len/2).
   */
  lemma AnimateSchedulesCompletion(a: AnimState, r: ReelState, sequence: seq<string>, giftId: Option<string>,
                                   giftType: string, gift: GL.Gift, gifts: GL.Catalogue, r2: ReelState)
    requires Sound(a) && giftType != ""
    ensures var (a1, r1, cb) := Animate(a, r, Some(sequence), giftId, Some(giftType), Some(gift), gifts);
      cb == NoCallback && !a1.skipTriggered && a1.skipTimestamp == None
      && a1.spinTimer == Some(a.nextHandle)
      && a1.timers == map[a.nextHandle := Completion(|sequence| / 2, giftId, giftType, gift)]
      && r1.items == LotteryElements(sequence, gifts) && !r1.idle && !r1.completed && !Saved(r1)
      && FireBegin(a1, r2, a.nextHandle).2 == Ran(Finished(true, giftId, Some(gift)))
      && FireBegin(a1, r2, a.nextHandle).1 == Completed(r2, |sequence| / 2)
  {
  }

  /** Without a sequence, a truthy type or a gift, animateLottery finishes at once with failure and leaves no timer. */
  lemma AnimateMissingData(a: AnimState, r: ReelState, sequence: Option<seq<string>>, giftId: Option<string>,
                           giftType: Option<string>, gift: Option<GL.Gift>, gifts: GL.Catalogue)
    requires Sound(a) && (sequence.None? || !Truthy(giftType) || gift.None?)
    ensures var (a1, r1, cb) := Animate(a, r, sequence, giftId, giftType, gift, gifts);
      cb == Finished(false, None, None) && a1.timers == map[] && a1.spinTimer == None
      && !a1.skipTriggered && r1 == r.(idle := false)
  {
  }

  /** Without force, a saved reel is only recentred: nothing is drawn or rebuilt and the idle animation is not restarted. */
  lemma SavedDisplayKept(r: ReelState, available: GL.Catalogue, rng: GL.Rng, k: nat)
    requires Saved(r)
    ensures var (r1, k1) := InitDisplay(r, available, false, rng, k);
      k1 == k && r1.idle == r.idle && Saved(r1)
      && r1.items == (if r.items == [] then r.lastContent.value else r.items)
  {
  }

  /**
   * Otherwise the idle reel is rebuilt: twenty items, the ten picks twice,
   * each a gift of the list and none winning; nothing for an empty list.
   */
  lemma IdleReel(r: ReelState, available: GL.Catalogue, force: bool, rng: GL.Rng, k: nat)
    requires force || !Saved(r)
    ensures var (r1, k1) := InitDisplay(r, available, force, rng, k);
      r1.idle && k1 == k + IdleDraws(available)
      && (available == [] ==> r1.items == [])
      && (available != [] ==> |r1.items| == 2 * IdleBaseCount && r1.items[..IdleBaseCount] == r1.items[IdleBaseCount..])
      && (forall i :: 0 <= i < |r1.items| ==> r1.items[i].giftId in GL.Ids(available) && !r1.items[i].winning)
      && (force ==> !Saved(r1))
  {
    if available != [] {
      IdlePicksListed(available, rng, k, IdleBaseCount);
    }
  }

  // ---------------------------------------------------------------------
  // The objects.

  /** The module-level animationState, with the timers the browser holds for it. */
  class AnimationState {
    var spinTimer: Option<nat>
    var skipTriggered: bool
    var skipTimestamp: Option<int>
    var timers: map<nat, Completion>
    var nextHandle: nat

    function Model(): AnimState
      reads this
    {
      AnimState(spinTimer, skipTriggered, skipTimestamp, timers, nextHandle)
    }

    constructor ()
      ensures Model() == Initial
    {
      spinTimer, skipTriggered, skipTimestamp, timers, nextHandle := None, false, None, map[], 1;
    }

    /** `if (spinTimer) { clearTimeout(spinTimer); spinTimer = null; }` */
    method CancelSpinTimer()
      modifies this
      ensures Model() == Cancelled(old(Model()))
    {
      if spinTimer.Some? {
        timers := timers - {spinTimer.value};
        spinTimer := None;
      }
    }

    /** animateLottery's opening: the pending timer is cancelled and the skip flag cleared. */
    method ResetSkip()
      modifies this
      ensures Model() == Cancelled(old(Model())).(skipTriggered := false, skipTimestamp := None)
    {
      CancelSpinTimer();
      skipTriggered := false;
      skipTimestamp := None;
    }

    /** markAnimationSkipped at time `now`. */
    method MarkAnimationSkipped(now: int)
      modifies this
      ensures Model() == Skip(old(Model()), now)
    {
      skipTriggered := true;
      CancelSpinTimer();
      skipTimestamp := Some(now);
    }

    /** `spinTimer = setTimeout(callback, 6500)`. */
    method Schedule(c: Completion)
      modifies this
      ensures Model() == old(Model()).(spinTimer := Some(old(nextHandle)), timers := old(timers)[old(nextHandle) := c],
                                       nextHandle := old(nextHandle) + 1)
    {
      var h := nextHandle;
      nextHandle := nextHandle + 1;
      timers := timers[h := c];
      spinTimer := Some(h);
    }

    /** The browser takes pending timer `h` to run it. */
    method Take(h: nat) returns (c: Option<Completion>)
      modifies this
      ensures c == (if h in old(timers) then Some(old(timers)[h]) else None)
      ensures Model() == old(Model()).(timers := old(timers) - {h})
    {
      c := if h in timers then Some(timers[h]) else None;
      timers := timers - {h};
    }

    /** `spinTimer = null` at the end of the completion callback. */
    method ReleaseSpinTimer()
      modifies this
      ensures Model() == FireEnd(old(Model()))
    {
      spinTimer := None;
    }
  }

  /** The reel container element (#lotteryItems) and its dataset. */
  class LotteryItems {
    var items: seq<ReelItem>
    var lastPosition: bool
    var lastContent: Option<seq<ReelItem>>
    var idle: bool
    var completed: bool

    function Model(): ReelState
      reads this
    {
      ReelState(items, lastPosition, lastContent, idle, completed)
    }

    constructor ()
      ensures Model() == ReelState([], false, None, false, false)
    {
      items, lastPosition, lastContent, idle, completed := [], false, None, false, false;
    }

    /** stopIdleAnimation. */
    method StopIdleAnimation()
      modifies this
      ensures Model() == old(Model()).(idle := false)
    {
      idle := false;
    }

    /** createLotteryElements(sequence, type, gifts), after the saved state is dropped. */
    method CreateLotteryElements(sequence: seq<string>, gifts: GL.Catalogue)
      modifies this
      ensures Model() == old(Model()).(items := LotteryElements(sequence, gifts))
    {
      var winningItemIndex := |sequence| / 2;
      items := [];
      var index := 0;
      while index < |sequence|
        invariant 0 <= index <= |sequence|
        invariant items == ElementsUpTo(sequence, gifts, index)
        invariant Model() == old(Model()).(items := items)
      {
        match GL.Find(gifts, sequence[index]) {
          case None =>
          case Some(g) =>
            items := items + [ReelItem(sequence[index], Price(g), index == winningItemIndex)];
        }
        index := index + 1;
      }
    }

    /** animateLottery's reel part: the saved state is dropped and the reel rebuilt from `sequence`. */
    method Rebuild(sequence: seq<string>, gifts: GL.Catalogue)
      modifies this
      ensures Model() == old(Model()).(lastPosition := false, lastContent := None, completed := false,
                                       items := LotteryElements(sequence, gifts))
    {
      lastPosition := false;
      lastContent := None;
      completed := false;
      CreateLotteryElements(sequence, gifts);
    }

    /** handleSpinCompletion's reel part: highlight `index`, save position and content. */
    method Complete(index: nat)
      modifies this
      ensures Model() == Completed(old(Model()), index)
    {
      if index < |items| {
        items := items[index := items[index].(winning := true)];
      }
      lastPosition := true;
      lastContent := Some(items);
    }

    /** positionLotteryForWinningItem(lotteryItems, result). */
    method PositionLotteryForWinningItem(sequence: Option<seq<string>>)
      modifies this
      ensures Model() == Positioned(old(Model()), sequence)
    {
      if sequence.None? {
        return;
      }
      var winningItemIndex := |sequence.value| / 2;
      if winningItemIndex < |items| {
        items := items[winningItemIndex := items[winningItemIndex].(winning := true)];
      }
      lastPosition := true;
      lastContent := Some(items);
      completed := true;
    }

    /** initLotteryDisplay(lotteryItems, available, force), with draws from k; returns the next unused draw. */
    method InitLotteryDisplay(available: GL.Catalogue, force: bool, rng: GL.Rng, k: nat) returns (next: nat)
      modifies this
      ensures (Model(), next) == InitDisplay(old(Model()), available, force, rng, k)
    {
      if !force && lastPosition && lastContent.Some? && lastContent.value != [] {
        if items == [] {
          items := lastContent.value;
        }
        return k;
      }
      if force {
        lastPosition := false;
        lastContent := None;
      }
      items := [];
      next := k;
      if available != [] {
        var base: seq<ReelItem> := [];
        for i := 0 to IdleBaseCount
          invariant base == IdlePicks(available, rng, k, i)
        {
          var (id, g) := available[GL.Index(rng(k + i), |available|)];
          base := base + [ReelItem(id, Price(g), false)];
        }
        items := base + base;
        next := k + IdleBaseCount;
      }
      idle := true;
    }
  }

  /** animateLottery(result, gameState, lotteryItems, finishCallback); returns the callback's immediate call, if any. */
  method AnimateLottery(st: AnimationState, reel: LotteryItems, sequence: Option<seq<string>>, giftId: Option<string>,
                        giftType: Option<string>, gift: Option<GL.Gift>, gifts: GL.Catalogue)
    returns (cb: Callback)
    modifies st, reel
    ensures (st.Model(), reel.Model(), cb) == Animate(old(st.Model()), old(reel.Model()), sequence, giftId, giftType, gift, gifts)
  {
    reel.StopIdleAnimation();
    st.ResetSkip();
    if sequence.None? || !Truthy(giftType) || gift.None? {
      return Finished(false, None, None);
    }
    reel.Rebuild(sequence.value, gifts);
    // startSpinAnimation
    if st.skipTriggered {
      return NoCallback;
    }
    st.Schedule(Completion(|sequence.value| / 2, giftId, giftType.value, gift.value));
    return NoCallback;
  }

  /** The browser runs completion timer `h`, up to the call of finishCallback. */
  method FireSpinTimer(st: AnimationState, reel: LotteryItems, h: nat) returns (f: Firing)
    modifies st, reel
    ensures (st.Model(), reel.Model(), f) == FireBegin(old(st.Model()), old(reel.Model()), h)
  {
    var c := st.Take(h);
    if c.None? {
      assert old(st.timers) - {h} == old(st.timers);
      return NotScheduled;
    }
    if !st.skipTriggered {
      reel.Complete(c.value.index);
      return Ran(Finished(true, c.value.giftId, Some(c.value.gift)));
    }
    return Ran(NoCallback);
  }
}

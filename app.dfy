// The game-state machine of app.js: spinLottery and getGameResult,
// prepareSpinning (the charge), finishSpinning (unlock, refund, redisplay),
// the spin-completion callback, the skip button, the bet and demo
// controls, window.spinLottery with a pending bet, and the task
// notification flags behind updateTasksProgress. Each event is a function
// from the state before to the state after; the fetch reply, Date.now()
// and Math.random() are parameters. Math.random is an arbitrary stream
// rng(0), rng(1), ... and `draws` is the index the next modelled draw
// reads: the gift draws of the idle reel, the demo result and the result
// repair advance it. The draws that only place the reel (startSpinAnimation,
// positionLotteryForWinningItem) are not modelled and do not advance it,
// and a demo result that throws after drawing leaves it where it was.
module App {
  import opened Js
  import GL = GameLogic
  import UD = UserData
  import An = Animations

  /**
   * gameState, with window.pendingBetType, whether the win modal is open,
   * and the task_notification_<id> flags kept in localStorage (the ids
   * whose flag is 'true').
   */
  datatype GameState = GameState(
    isSpinning: bool,
    selectedBet: UD.Bet,
    demoMode: bool,
    lastGameResult: Option<GL.GameResult>,
    pendingBet: Option<UD.Bet>,
    winModal: bool,
    shown: set<string>,
    gifts: GL.Catalogue,
    settings: GL.Settings)

  /** Everything a spin reads or writes: the game, userData, animationState, the reel, and the next draw. */
  datatype World = World(game: GameState, user: UD.Stats, anim: An.AnimState, reel: An.ReelState, draws: nat)

  /**
   * Between events: animationState is sound, a completion timer is pending
   * exactly while a spin runs, and a running spin has a result with a
   * winning id and gift (what the skip button needs), which the pending
   * timer will complete with.
   */
  predicate Inv(w: World)
  {
    An.Sound(w.anim)
    && (w.game.isSpinning <==> w.anim.timers != map[])
    && (forall h :: h in w.anim.timers ==> Completes(w.anim.timers[h], w.game.lastGameResult))
    && (w.game.isSpinning ==>
          w.game.lastGameResult.Some?
          && Truthy(w.game.lastGameResult.value.winningGiftId)
          && w.game.lastGameResult.value.winningGift.Some?)
  }

  /** A completion timer finishes with the winning id and gift of the saved result. */
  predicate Completes(c: An.Completion, saved: Option<GL.GameResult>)
  {
    saved.Some? && c.giftId == saved.value.winningGiftId && saved.value.winningGift == Some(c.gift)
  }

  // ---------------------------------------------------------------------
  // finishSpinning and the lottery display.

  /** setupLotteryDisplay(force): initLotteryDisplay over the gifts offered for the selected bet. */
  function Setup(w: World, force: bool, rng: GL.Rng): World
  {
    var available := GL.AvailableGifts(w.game.gifts, w.game.settings, UD.BetName(w.game.selectedBet));
    var (reel, k) := An.InitDisplay(w.reel, available, force, rng, w.draws);
    w.(reel := reel, draws := k)
  }

  /**
   * The body of finishSpinning for a running spin, up to its last
   * statement: unlock; on success redisplay the idle reel unless the win
   * modal is open; on failure outside demo mode refund the bet's cost when
   * `refund` holds (as written it always does).
   */
  function Unlock(w: World, success: bool, refund: bool, rng: GL.Rng): World
  {
    var w1 := w.(game := w.game.(isSpinning := false));
    if success then (if !w1.game.winModal then Setup(w1, false, rng) else w1)
    else if refund && !w1.game.demoMode then
      w1.(user := w1.user.(balance := w1.user.balance + UD.Cost(w1.game.selectedBet)))
    else w1
  }

  /**
   * finishSpinning(success), as written; the flag says whether it threw.
   * Not spinning: nothing happens. Otherwise the unlock runs and then,
   * for a success, the test of `animationState.skipTriggered` throws a
   * ReferenceError (that name is not bound in app.js), so
   * lastGameResult is never cleared; for a failure `success && ...` stops
   * before the name is read.
   */
  function FinishSpinning(w: World, success: bool, rng: GL.Rng): (r: (World, bool))
  {
    if !w.game.isSpinning then (w, false) else (Unlock(w, success, true, rng), success)
  }

  /** finishSpinning as evidently intended: no exception, and a normal (not skipped) success clears lastGameResult. */
  function FinishSpinningIntended(w: World, success: bool, rng: GL.Rng): World
  {
    if !w.game.isSpinning then w
    else
      var w1 := Unlock(w, success, true, rng);
      if success && !w1.anim.skipTriggered then w1.(game := w1.game.(lastGameResult := None)) else w1
  }

  /**
   * finishSpinning acts once: it throws exactly for a running spin's
   * success, leaves the spin stopped, refunds the bet's cost exactly for a
   * running spin's failure outside demo mode, changes nothing else of
   * userData and animationState, and a second call changes nothing.
   */
  lemma FinishOnce(w: World, success: bool, rng: GL.Rng, rng2: GL.Rng)
    ensures var (w1, threw) := FinishSpinning(w, success, rng);
      (threw <==> w.game.isSpinning && success)
      && !w1.game.isSpinning
      && w1.user == (if w.game.isSpinning && !success && !w.game.demoMode
                     then w.user.(balance := w.user.balance + UD.Cost(w.game.selectedBet)) else w.user)
      && w1.anim == w.anim && w1.game.lastGameResult == w.game.lastGameResult
      && FinishSpinning(w1, success, rng2) == (w1, false)
  {
  }

  // ---------------------------------------------------------------------
  // getGameResult.

  /**
   * validateAndFixResult on a result, then `result.success ? result :
   * null`; a thrown error becomes null. The repair writes gift_id into the
   * gifts dictionary and consumes draws.
   */
  function Validated(w: World, res: GL.GameResult, rng: GL.Rng): (World, Option<GL.GameResult>)
  {
    ApplyRepair(w, GL.ValidateAndFixResult(Some(res), w.game.gifts, w.game.settings, UD.BetName(w.game.selectedBet), rng, w.draws))
  }

  /**
   * What getGameResult keeps of validateAndFixResult's outcome: the
   * dictionary and the draws it leaves, and the result when it is a success
   * (null after an exception).
   */
  function ApplyRepair(w: World, fixedUp: Result<GL.Repair>): (World, Option<GL.GameResult>)
  {
    match fixedUp
    case Throws(_) => (w, None)
    case Ok(rep) =>
      (w.(game := w.game.(gifts := rep.gifts), draws := rep.next),
       if rep.result.Some? && rep.result.value.success then rep.result else None)
  }

  /**
   * getGameResult: in demo mode the local result (an error becomes null);
   * otherwise the server's `reply` (a failed request is a reply without
   * success), null on a cooldown refusal, the experience taken over from
   * a successful reply that carries one; then the repair.
   */
  function GetGameResult(w: World, reply: GL.GameResult, nowMs: int, rng: GL.Rng): (World, Option<GL.GameResult>)
  {
    if w.game.demoMode then
      TakeDemo(w, GL.DemoResult(w.game.gifts, w.game.settings, UD.BetName(w.game.selectedBet), rng, w.draws, nowMs), rng)
    else if !reply.success && reply.cooldown then (w, None)
    else
      var w1 := if reply.success && reply.exp.Some? then w.(user := w.user.(exp := reply.exp)) else w;
      Validated(w1, reply, rng)
  }

  /** The demo branch of getGameResult on the local result: an error becomes null, otherwise its draws are used and it is repaired. */
  function TakeDemo(w: World, d: Result<(GL.GameResult, nat)>, rng: GL.Rng): (World, Option<GL.GameResult>)
  {
    match d
    case Throws(_) => (w, None)
    case Ok((res, k)) => Validated(w.(draws := k), res, rng)
  }

  /**
   * What getGameResult hands back: null for a cooldown or any
   * unsuccessful server reply; otherwise a successful result whose
   * winning type sits in the middle of its sequence, with a gift object.
   * It never touches the spin flag, the balance, the bet or the reel.
   */
  lemma GameResultShape(w: World, reply: GL.GameResult, nowMs: int, rng: GL.Rng)
    ensures var (w1, res) := GetGameResult(w, reply, nowMs, rng);
      (!w.game.demoMode && !reply.success ==> res == None)
      && (res.Some? ==>
            res.value.success && res.value.sequence.Some? && res.value.winningGiftType.Some?
            && GL.Centred(res.value.sequence.value, res.value.winningGiftType.value)
            && res.value.winningGift.Some?)
      && w1.game == w.game.(gifts := w1.game.gifts)
      && w1.user == w.user.(exp := w1.user.exp) && w1.anim == w.anim && w1.reel == w.reel
  {
    if w.game.demoMode {
      match GL.DemoResult(w.game.gifts, w.game.settings, UD.BetName(w.game.selectedBet), rng, w.draws, nowMs) {
        case Throws(_) =>
        case Ok((res, k)) => ValidatedShape(w.(draws := k), res, rng);
      }
    } else if reply.success || !reply.cooldown {
      var w1 := if reply.success && reply.exp.Some? then w.(user := w.user.(exp := reply.exp)) else w;
      ValidatedShape(w1, reply, rng);
    }
  }

  lemma ValidatedShape(w: World, res: GL.GameResult, rng: GL.Rng)
    ensures var (w1, r) := Validated(w, res, rng);
      (!res.success ==> r == None)
      && (r.Some? ==>
            r.value.success && r.value.sequence.Some? && r.value.winningGiftType.Some?
            && GL.Centred(r.value.sequence.value, r.value.winningGiftType.value)
            && r.value.winningGift.Some?)
      && w1.game == w.game.(gifts := w1.game.gifts) && w1.user == w.user && w1.anim == w.anim && w1.reel == w.reel
  {
    var bet := UD.BetName(w.game.selectedBet);
    if GL.ValidateAndFixResult(Some(res), w.game.gifts, w.game.settings, bet, rng, w.draws).Ok? {
      GL.RepairCentresWinner(res, w.game.gifts, w.game.settings, bet, rng, w.draws);
    }
  }

  // ---------------------------------------------------------------------
  // spinLottery.

  /** How far a spin got before the animation: not started, no result, or charged with a result. */
  datatype Begun = Blocked(w: World) | NoResult(w: World) | Charged(w: World, result: GL.GameResult)

  /**
   * spinLottery up to the animation: the canStartSpin gate (which records
   * the bet as pending when crystals are short), the lock, getGameResult,
   * then prepareSpinning's charge and the saved result.
   */
  function Begin(w: World, e: UD.BalanceElement, reply: GL.GameResult, nowMs: int, rng: GL.Rng): Begun
  {
    match UD.CanStartSpin(w.game.isSpinning, w.game.demoMode, UD.ActualBalance(e), w.game.selectedBet)
    case Busy => Blocked(w)
    case ShortOf(_) => Blocked(w.(game := w.game.(pendingBet := Some(w.game.selectedBet))))
    case Allowed => Proceed(w, reply, nowMs, rng)
  }

  /** Past the gate: the lock, getGameResult, then prepareSpinning's charge and the saved result. */
  function Proceed(w: World, reply: GL.GameResult, nowMs: int, rng: GL.Rng): Begun
  {
    var w1 := w.(game := w.game.(isSpinning := true, lastGameResult := None));
    var (w2, res) := GetGameResult(w1, reply, nowMs, rng);
    match res
    case None => NoResult(w2)
    case Some(r) =>
      var (u, _) := UD.ChargeSpin(w2.user, w2.game.demoMode, w2.game.selectedBet);
      Charged(w2.(user := u, game := w2.game.(lastGameResult := res)), r)
  }

  /** The spin-completion callback of app.js; the flag says whether finishSpinning threw. */
  function HandleSpinCompletion(w: World, success: bool, giftId: Option<string>, gift: Option<GL.Gift>, rng: GL.Rng)
    : (World, bool)
  {
    var w1 := if success && Truthy(giftId) && gift.Some? then w.(game := w.game.(winModal := true)) else w;
    FinishSpinning(w1, success, rng)
  }

  /**
   * The rest of spinLottery once charged: without sequence, winning id or
   * gift, finishSpinning(false); otherwise animateLottery, whose immediate
   * failure callback also finishes with failure.
   */
  function Launch(w: World, r: GL.GameResult, rng: GL.Rng): World
  {
    if r.sequence.None? || !Truthy(r.winningGiftId) || r.winningGift.None? then FinishSpinning(w, false, rng).0
    else
      var (a, reel, cb) := An.Animate(w.anim, w.reel, r.sequence, r.winningGiftId, r.winningGiftType, r.winningGift, w.game.gifts);
      var w1 := w.(anim := a, reel := reel);
      match cb
      case Finished(s, id, g) => HandleSpinCompletion(w1, s, id, g, rng).0
      case NoCallback => w1
  }

  /** spinLottery, the click on the spin button, as written. */
  function SpinLottery(w: World, e: UD.BalanceElement, reply: GL.GameResult, nowMs: int, rng: GL.Rng): World
  {
    match Begin(w, e, reply, nowMs, rng)
    case Blocked(w1) => w1
    case NoResult(w1) => FinishSpinning(w1, false, rng).0
    case Charged(w1, r) => Launch(w1, r, rng)
  }

  /** spinLottery as evidently intended: a spin that got no result has charged nothing and refunds nothing. */
  function SpinLotteryIntended(w: World, e: UD.BalanceElement, reply: GL.GameResult, nowMs: int, rng: GL.Rng): World
  {
    match Begin(w, e, reply, nowMs, rng)
    case Blocked(w1) => w1
    case NoResult(w1) => Unlock(w1, false, false, rng)
    case Charged(w1, r) => Launch(w1, r, rng)
  }

  /**
   * window.spinLottery: with a pending bet, select it, spin, and drop the
   * pending bet; otherwise just spin.
   */
  function WindowSpinLottery(w: World, e: UD.BalanceElement, reply: GL.GameResult, nowMs: int, rng: GL.Rng): World
  {
    match w.game.pendingBet
    case None => SpinLottery(w, e, reply, nowMs, rng)
    case Some(b) =>
      var w1 := SpinLottery(w.(game := w.game.(selectedBet := b)), e, reply, nowMs, rng);
      w1.(game := w1.game.(pendingBet := None))
  }

  /**
   * Once charged, the rest of a spin keeps the invariant, and the bet's
   * cost comes back exactly when the spin ends there (outside demo mode).
   */
  lemma LaunchFacts(w: World, r: GL.GameResult, rng: GL.Rng)
    requires An.Sound(w.anim) && w.anim.timers == map[] && w.game.isSpinning
    requires w.game.lastGameResult == Some(r)
    ensures var w1 := Launch(w, r, rng);
      Inv(w1)
      && w1.user.balance == w.user.balance
           + (if !w1.game.isSpinning && !w.game.demoMode then UD.Cost(w.game.selectedBet) else 0)
  {
    if r.sequence.Some? && Truthy(r.winningGiftId) && r.winningGift.Some? {
      if Truthy(r.winningGiftType) {
        An.AnimateSchedulesCompletion(w.anim, w.reel, r.sequence.value, r.winningGiftId, r.winningGiftType.value,
                                      r.winningGift.value, w.game.gifts, w.reel);
      } else {
        An.AnimateMissingData(w.anim, w.reel, r.sequence, r.winningGiftId, r.winningGiftType, r.winningGift, w.game.gifts);
      }
    }
  }

  /**
   * Up to the animation a spin either is blocked (only the pending bet may
   * change), or has locked the game with no timer pending and, once
   * charged, saved its result and paid the bet's cost outside demo mode.
   */
  lemma BeginFacts(w: World, e: UD.BalanceElement, reply: GL.GameResult, nowMs: int, rng: GL.Rng)
    requires Inv(w)
    ensures match Begin(w, e, reply, nowMs, rng)
      case Blocked(w1) => w1 == w.(game := w.game.(pendingBet := w1.game.pendingBet))
      case NoResult(w1) =>
        !w.game.isSpinning && w1.game.isSpinning && w1.anim == w.anim && w1.user.balance == w.user.balance
        && w1.game.demoMode == w.game.demoMode && w1.game.selectedBet == w.game.selectedBet
      case Charged(w1, r) =>
        !w.game.isSpinning && w1.game.isSpinning && w1.anim == w.anim && w1.game.lastGameResult == Some(r)
        && w1.user.balance == w.user.balance - (if w.game.demoMode then 0 else UD.Cost(w.game.selectedBet))
        && w1.game.demoMode == w.game.demoMode && w1.game.selectedBet == w.game.selectedBet
  {
    if UD.CanStartSpin(w.game.isSpinning, w.game.demoMode, UD.ActualBalance(e), w.game.selectedBet) == UD.Allowed {
      var w1 := w.(game := w.game.(isSpinning := true, lastGameResult := None));
      GameResultShape(w1, reply, nowMs, rng);
    }
  }

  /**
   * A spin keeps the invariant: it either does not start, ends at once
   * (no result, incomplete result), or leaves one completion timer
   * pending for a result with an id and a gift.
   */
  lemma SpinKeepsInv(w: World, e: UD.BalanceElement, reply: GL.GameResult, nowMs: int, rng: GL.Rng)
    requires Inv(w)
    ensures Inv(SpinLottery(w, e, reply, nowMs, rng))
    ensures Inv(SpinLotteryIntended(w, e, reply, nowMs, rng))
    ensures Inv(WindowSpinLottery(w, e, reply, nowMs, rng))
  {
    SpinStepKeepsInv(w, e, reply, nowMs, rng);
    if w.game.pendingBet.Some? {
      SpinStepKeepsInv(w.(game := w.game.(selectedBet := w.game.pendingBet.value)), e, reply, nowMs, rng);
    }
  }

  lemma SpinStepKeepsInv(w: World, e: UD.BalanceElement, reply: GL.GameResult, nowMs: int, rng: GL.Rng)
    requires Inv(w)
    ensures Inv(SpinLottery(w, e, reply, nowMs, rng))
    ensures Inv(SpinLotteryIntended(w, e, reply, nowMs, rng))
  {
    BeginFacts(w, e, reply, nowMs, rng);
    match Begin(w, e, reply, nowMs, rng)
    case Blocked(w1) =>
    case NoResult(w1) =>
    case Charged(w1, r) => LaunchFacts(w1, r, rng);
  }

  /**
   * The balance a spin leaves, as evidently intended: the bet's cost is
   * gone exactly when a paid spin is under way, and nothing else changes
   * it (a spin that is blocked, gets no result or cannot be animated
   * costs nothing).
   */
  lemma IntendedSpinCharge(w: World, e: UD.BalanceElement, reply: GL.GameResult, nowMs: int, rng: GL.Rng)
    requires Inv(w)
    ensures var w1 := SpinLotteryIntended(w, e, reply, nowMs, rng);
      w1.user.balance == w.user.balance
        - (if w1.game.isSpinning && !w.game.isSpinning && !w.game.demoMode then UD.Cost(w.game.selectedBet) else 0)
  {
    BeginFacts(w, e, reply, nowMs, rng);
    match Begin(w, e, reply, nowMs, rng)
    case Blocked(w1) =>
    case NoResult(w1) =>
    case Charged(w1, r) => LaunchFacts(w1, r, rng);
  }

  /**
   * As written, a spin the server refuses for cooldown (no charge was
   * made) still refunds the bet's cost: the balance grows by it, and the
   * spin count shows no spin.
   */
  lemma RefundWithoutCharge(w: World, e: UD.BalanceElement, reply: GL.GameResult, nowMs: int, rng: GL.Rng)
    requires !w.game.isSpinning && !w.game.demoMode
    requires UD.ActualBalance(e).None? || UD.ActualBalance(e).value >= UD.Cost(w.game.selectedBet)
    requires reply.cooldown && !reply.success
    ensures var w1 := SpinLottery(w, e, reply, nowMs, rng);
      w1.user.balance == w.user.balance + UD.Cost(w.game.selectedBet)
      && w1.user.spinsCount == w.user.spinsCount && !w1.game.isSpinning
  {
  }

  // ---------------------------------------------------------------------
  // The completion timer and the skip button.

  /**
   * The browser runs completion timer `h`: animations.js's callback and,
   * through it, the spin-completion callback. When finishSpinning throws,
   * the callback's closing `spinTimer = null` is not reached.
   */
  function FireSpinTimer(w: World, h: nat, rng: GL.Rng): World
  {
    var (a, reel, f) := An.FireBegin(w.anim, w.reel, h);
    match f
    case NotScheduled => w
    case Ran(NoCallback) => w.(anim := An.FireEnd(a), reel := reel)
    case Ran(Finished(s, id, g)) =>
      var (w1, threw) := HandleSpinCompletion(w.(anim := a, reel := reel), s, id, g, rng);
      if threw then w1 else w1.(anim := An.FireEnd(w1.anim))
  }

  /** The timer as evidently intended: finishSpinning completes and the callback then releases spinTimer. */
  function FireSpinTimerIntended(w: World, h: nat, rng: GL.Rng): World
  {
    var (a, reel, f) := An.FireBegin(w.anim, w.reel, h);
    match f
    case NotScheduled => w
    case Ran(NoCallback) => w.(anim := An.FireEnd(a), reel := reel)
    case Ran(Finished(s, id, g)) =>
      var w0 := w.(anim := a, reel := reel);
      var w1 := if s && Truthy(id) && g.Some? then w0.(game := w0.game.(winModal := true)) else w0;
      var w2 := FinishSpinningIntended(w1, s, rng);
      w2.(anim := An.FireEnd(w2.anim))
  }

  /**
   * The skip button: only with fast play unlocked, a spin running and a
   * saved result with a winning id and gift; then mark the skip (which
   * cancels the timer), jump the reel to the winner, open the win modal and
   * finish with success (its exception is caught).
   */
  function SkipAnimation(w: World, now: int, rng: GL.Rng): World
  {
    if !w.user.fastPlay || !w.game.isSpinning then w
    else
      match w.game.lastGameResult
      case None => w
      case Some(r) =>
        if !Truthy(r.winningGiftId) || r.winningGift.None? then w
        else
          var w1 := w.(anim := An.Skip(w.anim, now), reel := An.Positioned(w.reel, r.sequence),
                       game := w.game.(winModal := true));
          FinishSpinning(w1, true, rng).0
  }

  lemma FireKeepsInv(w: World, h: nat, rng: GL.Rng)
    requires Inv(w)
    ensures Inv(FireSpinTimer(w, h, rng))
    ensures Inv(FireSpinTimerIntended(w, h, rng))
  {
    An.EventsKeepSound(w.anim, w.reel, None, None, None, None, [], 0, h);
    if h in w.anim.timers {
      An.PendingTimerCompletes(w.anim, w.reel, h);
      An.CompletesOnce(w.anim, w.reel, h, w.reel, h);
      An.OneTimerAtMost(w.anim);
    }
  }

  lemma SkipKeepsInv(w: World, now: int, rng: GL.Rng)
    requires Inv(w)
    ensures Inv(SkipAnimation(w, now, rng))
  {
    An.EventsKeepSound(w.anim, w.reel, None, None, None, None, [], now, 0);
  }

  /**
   * A running spin completes once: once its timer has fired, the skip
   * button and every other timer do nothing; once it has been skipped, no
   * timer fires and a second skip does nothing. Either way the win modal
   * is open and the spin has stopped.
   */
  lemma CompletesOnce(w: World, h: nat, h2: nat, now: int, now2: int, rng: GL.Rng, rng2: GL.Rng)
    requires Inv(w) && w.game.isSpinning && w.user.fastPlay
    ensures var s := SkipAnimation(w, now, rng);
      !s.game.isSpinning && s.game.winModal && s.anim.skipTriggered
      && FireSpinTimer(s, h2, rng2) == s && SkipAnimation(s, now2, rng2) == s
    ensures h in w.anim.timers ==>
      var f := FireSpinTimer(w, h, rng);
      !f.game.isSpinning && f.game.winModal
      && SkipAnimation(f, now2, rng2) == f && FireSpinTimer(f, h2, rng2) == f
  {
    SkipKeepsInv(w, now, rng);
    FireKeepsInv(w, h, rng);
    if h in w.anim.timers {
      An.PendingTimerCompletes(w.anim, w.reel, h);
    }
  }

  /**
   * As written, a spin that runs to its end leaves its result saved and
   * spinTimer naming a timer that has already fired, and finishSpinning
   * throws; only the spin flag and the win modal come out right.
   */
  lemma CompletionLeavesResult(w: World, h: nat, rng: GL.Rng)
    requires Inv(w) && h in w.anim.timers
    ensures var f := FireSpinTimer(w, h, rng);
      f.game.lastGameResult == w.game.lastGameResult && f.game.lastGameResult.Some?
      && f.anim.spinTimer == Some(h) && h !in f.anim.timers
      && HandleSpinCompletion(w.(anim := f.anim, reel := f.reel), true,
                              w.anim.timers[h].giftId, Some(w.anim.timers[h].gift), rng).1
  {
    An.PendingTimerCompletes(w.anim, w.reel, h);
  }

  /** As intended, a spin that runs to its end clears its result and spinTimer, and nothing is pending. */
  lemma IntendedCompletionClears(w: World, h: nat, rng: GL.Rng)
    requires Inv(w) && h in w.anim.timers
    ensures var f := FireSpinTimerIntended(w, h, rng);
      f.game.lastGameResult == None && f.anim.spinTimer == None && f.anim.timers == map[]
      && !f.game.isSpinning && f.game.winModal
  {
    An.PendingTimerCompletes(w.anim, w.reel, h);
    FireKeepsInv(w, h, rng);
  }

  // ---------------------------------------------------------------------
  // Bet and demo controls.

  /** A click on a bet option: ignored while spinning or for the bet already selected; otherwise select it and rebuild the idle reel. */
  function SelectBet(w: World, b: UD.Bet, rng: GL.Rng): World
  {
    if w.game.isSpinning || w.game.selectedBet == b then w
    else Setup(w.(game := w.game.(selectedBet := b)), true, rng)
  }

  /** A click on the demo toggle: ignored while spinning, else flips demo mode. */
  function ToggleDemo(w: World): World
  {
    if w.game.isSpinning then w else w.(game := w.game.(demoMode := !w.game.demoMode))
  }

  /** A change of the demo checkbox: ignored (and put back) while spinning, else demo mode follows it. */
  function DemoCheckbox(w: World, checked: bool): World
  {
    if w.game.isSpinning then w else w.(game := w.game.(demoMode := checked))
  }

  /** The win modal is closed. */
  function CloseWinModal(w: World): World
  {
    w.(game := w.game.(winModal := false))
  }

  lemma ControlsKeepInv(w: World, b: UD.Bet, checked: bool, rng: GL.Rng)
    requires Inv(w)
    ensures Inv(SelectBet(w, b, rng)) && Inv(ToggleDemo(w)) && Inv(DemoCheckbox(w, checked)) && Inv(CloseWinModal(w))
  {
  }

  /**
   * While a spin waits for its result (spinning, no result saved yet), the
   * bet, the demo controls, the skip button and the spin button all do
   * nothing; so the spin, from the click to the start of the animation,
   * can be taken as one step.
   */
  lemma AwaitingIgnoresInput(w: World, b: UD.Bet, checked: bool, now: int, e: UD.BalanceElement,
                             reply: GL.GameResult, nowMs: int, rng: GL.Rng)
    requires w.game.isSpinning && w.game.lastGameResult.None?
    ensures SelectBet(w, b, rng) == w && ToggleDemo(w) == w && DemoCheckbox(w, checked) == w
    ensures SkipAnimation(w, now, rng) == w && SpinLottery(w, e, reply, nowMs, rng) == w
  {
  }

  /** Outside a spin, choosing another bet selects it and always draws a fresh idle reel, dropping any saved one. */
  lemma NewBetRedraws(w: World, b: UD.Bet, rng: GL.Rng)
    requires !w.game.isSpinning && w.game.selectedBet != b
    ensures var w1 := SelectBet(w, b, rng);
      w1.game == w.game.(selectedBet := b) && w1.reel.idle && !An.Saved(w1.reel)
      && w1.user == w.user && w1.anim == w.anim
  {
    var w0 := w.(game := w.game.(selectedBet := b));
    An.IdleReel(w0.reel, GL.AvailableGifts(w0.game.gifts, w0.game.settings, UD.BetName(b)), true, rng, w0.draws);
  }

  // ---------------------------------------------------------------------
  // Task notifications.

  /** The fields of a task updateTasksProgress reads; a None field is undefined. */
  datatype Task = Task(
    id: string,
    activityType: Option<string>,
    verifierType: Option<string>,
    inventoryType: Option<string>,
    status: Option<string>,
    progress: Option<real>)

  /** The optimised task loader's answer. */
  datatype TasksReply = TasksReply(success: bool, tasks: seq<Task>)

  /** The three kinds of task updateTasksProgress announces, in the order it handles them. */
  datatype Group = PlayGames | Collection | ExperienceTasks

  /** Which notification is shown. */
  datatype NoticeKind = PlayFiveGames | PlayTenGames | Play500Games | WeeklyCollection | FastPlayAchieved | TaskCompleted

  datatype Notice = Notice(taskId: string, kind: NoticeKind)

  /** In progress and at 100%: ready for its reward. */
  predicate Ready(t: Task)
  {
    t.status == Some("in_progress") && t.progress == Some(100.0)
  }

  predicate InGroup(t: Task, grp: Group)
  {
    Ready(t)
    && match grp
       case PlayGames => t.activityType == Some("play_games")
       case Collection => t.verifierType == Some("inventory") && t.inventoryType == Some("gift_collection")
       case ExperienceTasks => t.verifierType == Some("experience")
  }

  function KindOf(t: Task, grp: Group): NoticeKind
  {
    match grp
    case PlayGames =>
      if t.id == "daily-play-five-games" then PlayFiveGames
      else if t.id == "daily-play-ten-games" then PlayTenGames
      else if t.id == "weekly-play-500-games" then Play500Games
      else TaskCompleted
    case Collection => if t.id == "weekly-collection" then WeeklyCollection else TaskCompleted
    case ExperienceTasks => if t.id == "achievement-fast-play" then FastPlayAchieved else TaskCompleted
  }

  /** A task whose flag is cleared: one of the three kinds, completed or below 100%. */
  predicate Resettable(t: Task)
  {
    (t.activityType == Some("play_games") || t.verifierType == Some("inventory") || t.verifierType == Some("experience"))
    && (t.status == Some("completed") || (t.progress.Some? && t.progress.value < 100.0))
  }

  /** The forEach over the first `n` tasks of a group: announce each one not yet flagged, and flag it. */
  function Announce(tasks: seq<Task>, grp: Group, shown: set<string>, n: nat): (seq<Notice>, set<string>)
    requires n <= |tasks|
  {
    if n == 0 then ([], shown)
    else
      var before := Announce(tasks, grp, shown, n - 1);
      var t := tasks[n - 1];
      if InGroup(t, grp) && t.id !in before.1 then (before.0 + [Notice(t.id, KindOf(t, grp))], before.1 + {t.id}) else before
  }

  /** The reset forEach over the first `n` tasks: clear the flag of each resettable task with a truthy id. */
  function Resets(tasks: seq<Task>, shown: set<string>, n: nat): set<string>
    requires n <= |tasks|
  {
    if n == 0 then shown
    else
      var sh := Resets(tasks, shown, n - 1);
      var t := tasks[n - 1];
      if Resettable(t) && t.id in sh && t.id != "" then sh - {t.id} else sh
  }

  /** The ids of the first `n` tasks of a group. */
  function GroupIds(tasks: seq<Task>, grp: Group, n: nat): set<string>
    requires n <= |tasks|
  {
    set j | 0 <= j < n && InGroup(tasks[j], grp) :: tasks[j].id
  }

  function NoticeIds(ns: seq<Notice>): set<string>
  {
    set i | 0 <= i < |ns| :: ns[i].taskId
  }

  predicate DistinctNotices(ns: seq<Notice>)
  {
    forall i, j :: 0 <= i < j < |ns| ==> ns[i].taskId != ns[j].taskId
  }

  /**
   * A group's pass announces exactly its tasks not flagged before, each
   * once, and flags all of them.
   */
  lemma {:induction false} AnnounceFacts(tasks: seq<Task>, grp: Group, shown: set<string>, n: nat)
    requires n <= |tasks|
    ensures var (ns, sh) := Announce(tasks, grp, shown, n);
      sh == shown + GroupIds(tasks, grp, n)
      && NoticeIds(ns) == GroupIds(tasks, grp, n) - shown
      && DistinctNotices(ns)
  {
    if n > 0 {
      var m := n - 1;
      AnnounceFacts(tasks, grp, shown, m);
      var (ns, sh) := Announce(tasks, grp, shown, m);
      AnnounceStep(tasks, grp, shown, m, n, ns, sh);
    }
  }

  /** The step of AnnounceFacts: the pass over one more task. */
  lemma AnnounceStep(tasks: seq<Task>, grp: Group, shown: set<string>, m: nat, n: nat, ns: seq<Notice>, sh: set<string>)
    requires n <= |tasks| && m + 1 == n && (ns, sh) == Announce(tasks, grp, shown, m)
    requires sh == shown + GroupIds(tasks, grp, m)
      && NoticeIds(ns) == GroupIds(tasks, grp, m) - shown
      && DistinctNotices(ns)
    ensures var (ns', sh') := Announce(tasks, grp, shown, n);
      sh' == shown + GroupIds(tasks, grp, n)
      && NoticeIds(ns') == GroupIds(tasks, grp, n) - shown
      && DistinctNotices(ns')
  {
    var t := tasks[m];
    var next := Announce(tasks, grp, shown, n);
    GroupIdsNext(tasks, grp, m, n);
    if InGroup(t, grp) && t.id !in sh {
      NoticeSnoc(ns, Notice(t.id, KindOf(t, grp)));
    }
    StepSets(shown, GroupIds(tasks, grp, m), GroupIds(tasks, grp, n), NoticeIds(ns), NoticeIds(next.0), sh, next.1, t.id, InGroup(t, grp));
  }

  /** The set bookkeeping of AnnounceStep, on the sets alone. */
  lemma StepSets(shown: set<string>, a: set<string>, a2: set<string>, ids: set<string>, ids2: set<string>,
                 sh: set<string>, sh2: set<string>, x: string, inGroup: bool)
    requires sh == shown + a && ids == a - shown
    requires a2 == a + (if inGroup then {x} else {})
    requires inGroup && x !in sh ==> sh2 == sh + {x} && ids2 == ids + {x}
    requires !(inGroup && x !in sh) ==> sh2 == sh && ids2 == ids
    ensures sh2 == shown + a2 && ids2 == a2 - shown
  {
  }

  lemma GroupIdsNext(tasks: seq<Task>, grp: Group, m: nat, n: nat)
    requires n <= |tasks| && m + 1 == n
    ensures GroupIds(tasks, grp, n) == GroupIds(tasks, grp, m) + (if InGroup(tasks[m], grp) then {tasks[m].id} else {})
  {
  }

  /** Appending a notice for a task not yet announced keeps the ids distinct and adds that id. */
  lemma NoticeSnoc(ns: seq<Notice>, x: Notice)
    ensures NoticeIds(ns + [x]) == NoticeIds(ns) + {x.taskId}
    ensures DistinctNotices(ns) && x.taskId !in NoticeIds(ns) ==> DistinctNotices(ns + [x])
  {
    var ns' := ns + [x];
    forall y | y in NoticeIds(ns')
      ensures y in NoticeIds(ns) + {x.taskId}
    {
      var i :| 0 <= i < |ns'| && ns'[i].taskId == y;
      if i < |ns| {
        assert ns[i].taskId == y;
      }
    }
    forall y | y in NoticeIds(ns)
      ensures y in NoticeIds(ns')
    {
      var i :| 0 <= i < |ns| && ns[i].taskId == y;
      assert ns'[i].taskId == y;
    }
    assert ns'[|ns|].taskId == x.taskId;
    forall i | 0 <= i < |ns|
      ensures ns[i].taskId in NoticeIds(ns)
    {
    }
  }

  /** The reset pass clears the flags of exactly the resettable tasks with a truthy id. */
  lemma {:induction false} ResetsFacts(tasks: seq<Task>, shown: set<string>, n: nat)
    requires n <= |tasks|
    ensures Resets(tasks, shown, n) == shown - set j | 0 <= j < n && Resettable(tasks[j]) && tasks[j].id != "" :: tasks[j].id
  {
    if n > 0 {
      ResetsFacts(tasks, shown, n - 1);
    }
  }

  /** All three passes then the reset pass; the notices in the order they are shown. */
  function Notify(tasks: seq<Task>, shown: set<string>): (seq<Notice>, set<string>)
  {
    var (n1, s1) := Announce(tasks, PlayGames, shown, |tasks|);
    var (n2, s2) := Announce(tasks, Collection, s1, |tasks|);
    var (n3, s3) := Announce(tasks, ExperienceTasks, s2, |tasks|);
    (n1 + n2 + n3, Resets(tasks, s3, |tasks|))
  }

  /**
   * updateTasksProgress with the loader's answer (None when it threw):
   * nothing in demo mode or without success; otherwise Notify.
   */
  function UpdateTasksProgress(w: World, reply: Option<TasksReply>): (World, seq<Notice>)
  {
    if w.game.demoMode || reply.None? || !reply.value.success then (w, [])
    else
      var (ns, sh) := Notify(reply.value.tasks, w.game.shown);
      (w.(game := w.game.(shown := sh)), ns)
  }

  /** The ids of every ready task of the three kinds. */
  function ReadyIds(tasks: seq<Task>): set<string>
  {
    GroupIds(tasks, PlayGames, |tasks|) + GroupIds(tasks, Collection, |tasks|) + GroupIds(tasks, ExperienceTasks, |tasks|)
  }

  /**
   * Each ready task not flagged before is announced exactly once, no other
   * task is; afterwards the flags are the old ones plus the ready ids,
   * minus those of the resettable tasks with a truthy id.
   */
  lemma NotifyFacts(tasks: seq<Task>, shown: set<string>)
    ensures var (ns, sh) := Notify(tasks, shown);
      NoticeIds(ns) == ReadyIds(tasks) - shown && DistinctNotices(ns)
      && sh == (shown + ReadyIds(tasks)) - set j | 0 <= j < |tasks| && Resettable(tasks[j]) && tasks[j].id != "" :: tasks[j].id
  {
    var (n1, s1) := Announce(tasks, PlayGames, shown, |tasks|);
    var (n2, s2) := Announce(tasks, Collection, s1, |tasks|);
    var (n3, s3) := Announce(tasks, ExperienceTasks, s2, |tasks|);
    AnnounceFacts(tasks, PlayGames, shown, |tasks|);
    AnnounceFacts(tasks, Collection, s1, |tasks|);
    AnnounceFacts(tasks, ExperienceTasks, s2, |tasks|);
    ResetsFacts(tasks, s3, |tasks|);
    ConcatIds(n1, n2);
    ConcatIds(n1 + n2, n3);
    ConcatDistinct(n1, n2);
    ConcatDistinct(n1 + n2, n3);
  }

  lemma ConcatIds(a: seq<Notice>, b: seq<Notice>)
    ensures NoticeIds(a + b) == NoticeIds(a) + NoticeIds(b)
  {
    forall x | x in NoticeIds(a + b)
      ensures x in NoticeIds(a) + NoticeIds(b)
    {
      var i :| 0 <= i < |a + b| && (a + b)[i].taskId == x;
      if i < |a| {
        assert a[i].taskId == x;
      } else {
        assert b[i - |a|].taskId == x;
      }
    }
    forall x | x in NoticeIds(a) + NoticeIds(b)
      ensures x in NoticeIds(a + b)
    {
      if x in NoticeIds(a) {
        var i :| 0 <= i < |a| && a[i].taskId == x;
        assert (a + b)[i].taskId == x;
      } else {
        var i :| 0 <= i < |b| && b[i].taskId == x;
        assert (a + b)[|a| + i].taskId == x;
      }
    }
  }

  lemma ConcatDistinct(a: seq<Notice>, b: seq<Notice>)
    requires DistinctNotices(a) && DistinctNotices(b) && NoticeIds(a) !! NoticeIds(b)
    ensures DistinctNotices(a + b)
  {
    forall i, j | 0 <= i < j < |a + b|
      ensures (a + b)[i].taskId != (a + b)[j].taskId
    {
      if i < |a| && j >= |a| {
        assert a[i].taskId in NoticeIds(a);
        assert b[j - |a|].taskId in NoticeIds(b);
      }
    }
  }

  lemma NoIdsNoNotices(ns: seq<Notice>)
    ensures NoticeIds(ns) == {} <==> ns == []
  {
    if ns != [] {
      assert ns[0].taskId in NoticeIds(ns);
    }
  }

  /** The tasks' ids are pairwise different. */
  predicate DistinctIds(tasks: seq<Task>)
  {
    forall i, j :: 0 <= i < j < |tasks| ==> tasks[i].id != tasks[j].id
  }

  /**
   * With distinct task ids, the same answer a second time announces
   * nothing: every ready task is flagged by the first time and no reset
   * clears it (a ready task is never resettable).
   */
  lemma SecondUpdateSilent(w: World, reply: TasksReply)
    requires DistinctIds(reply.tasks)
    ensures var (w1, _) := UpdateTasksProgress(w, Some(reply));
      UpdateTasksProgress(w1, Some(reply)).1 == []
  {
    if !w.game.demoMode && reply.success {
      SecondNotifySilent(reply.tasks, w.game.shown);
    }
  }

  /** Notify run a second time over the flags the first run left announces nothing. */
  lemma SecondNotifySilent(tasks: seq<Task>, shown: set<string>)
    requires DistinctIds(tasks)
    ensures Notify(tasks, Notify(tasks, shown).1).0 == []
  {
    var sh := Notify(tasks, shown).1;
    NotifyFacts(tasks, shown);
    ReadyStayFlagged(tasks, shown, sh);
    NotifyFacts(tasks, sh);
    NoIdsNoNotices(Notify(tasks, sh).0);
  }

  /** Every ready id is among the flags after Notify: no reset clears a ready task. */
  lemma ReadyStayFlagged(tasks: seq<Task>, shown: set<string>, sh: set<string>)
    requires DistinctIds(tasks)
    requires sh == (shown + ReadyIds(tasks)) - set j | 0 <= j < |tasks| && Resettable(tasks[j]) && tasks[j].id != "" :: tasks[j].id
    ensures ReadyIds(tasks) <= sh
  {
    forall x | x in ReadyIds(tasks)
      ensures x in sh
    {
      var i :| 0 <= i < |tasks| && Ready(tasks[i]) && tasks[i].id == x;
      forall j | 0 <= j < |tasks| && Resettable(tasks[j]) && tasks[j].id != ""
        ensures tasks[j].id != x
      {
        assert i != j;
      }
    }
  }

  /** Demo mode never announces or changes a flag. */
  lemma DemoSkipsTasks(w: World, reply: Option<TasksReply>)
    requires w.game.demoMode
    ensures UpdateTasksProgress(w, reply) == (w, [])
  {
  }
}

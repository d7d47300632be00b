// The page's game objects as app.js updates them in place: gameState (and
// window.pendingBetType, the win modal and the notification flags) as the
// fields of a Game, which also holds the userData record, animationState
// and the reel container. Each method carries out one event of app.js and
// is proved to leave exactly the state the function of module App with
// the same name describes.
module GameApp {
  import opened Js
  import GL = GameLogic
  import UD = UserData
  import An = Animations
  import A = App

  class Game {
    var isSpinning: bool
    var selectedBet: UD.Bet
    var demoMode: bool
    var lastGameResult: Option<GL.GameResult>
    var pendingBet: Option<UD.Bet>
    var winModal: bool
    var shown: set<string>
    var gifts: GL.Catalogue
    var settings: GL.Settings
    var draws: nat
    const user: UD.UserRecord
    const anim: An.AnimationState
    const reel: An.LotteryItems

    function State(): A.GameState
      reads this
    {
      A.GameState(isSpinning, selectedBet, demoMode, lastGameResult, pendingBet, winModal, shown, gifts, settings)
    }

    function Model(): A.World
      reads this, user, anim, reel
    {
      A.World(State(), user.Model(), anim.Model(), reel.Model(), draws)
    }

    /** The page after loading: the given game state and user, no animation, an empty reel. */
    constructor (g: A.GameState, u: UD.Stats)
      ensures Model() == A.World(g, u, An.Initial, An.ReelState([], false, None, false, false), 0)
    {
      isSpinning, selectedBet, demoMode, lastGameResult := g.isSpinning, g.selectedBet, g.demoMode, g.lastGameResult;
      pendingBet, winModal, shown, gifts, settings := g.pendingBet, g.winModal, g.shown, g.gifts, g.settings;
      draws := 0;
      user := new UD.UserRecord(u);
      anim := new An.AnimationState();
      reel := new An.LotteryItems();
    }

    /** setupLotteryDisplay(force). */
    method SetupLotteryDisplay(force: bool, rng: GL.Rng)
      modifies this, reel
      ensures Model() == A.Setup(old(Model()), force, rng)
    {
      var available := GL.AvailableGifts(gifts, settings, UD.BetName(selectedBet));
      draws := reel.InitLotteryDisplay(available, force, rng, draws);
    }

    /** finishSpinning(success); `threw` when it ends in the ReferenceError. */
    method FinishSpinning(success: bool, rng: GL.Rng) returns (threw: bool)
      modifies this, user, reel
      ensures (Model(), threw) == A.FinishSpinning(old(Model()), success, rng)
    {
      if !isSpinning {
        return false;
      }
      isSpinning := false;
      if success {
        if !winModal {
          SetupLotteryDisplay(false, rng);
        }
        // `animationState.skipTriggered`: the name is unbound here.
        return true;
      }
      if !demoMode {
        user.Credit(UD.Cost(selectedBet));
      }
      return false;
    }

    /** validateAndFixResult, and `result.success ? result : null`. */
    method Validate(res: GL.GameResult, rng: GL.Rng) returns (r: Option<GL.GameResult>)
      modifies this
      ensures (Model(), r) == A.Validated(old(Model()), res, rng)
    {
      var fixedUp := GL.ValidateAndFixResult(Some(res), gifts, settings, UD.BetName(selectedBet), rng, draws);
      r := ApplyRepair(fixedUp);
    }

    /** The fields validateAndFixResult's outcome updates, and the result getGameResult keeps. */
    method ApplyRepair(fixedUp: Result<GL.Repair>) returns (r: Option<GL.GameResult>)
      modifies this
      ensures (Model(), r) == A.ApplyRepair(old(Model()), fixedUp)
    {
      match fixedUp
      case Throws(_) =>
        return None;
      case Ok(rep) =>
        gifts := rep.gifts;
        draws := rep.next;
        r := if rep.result.Some? && rep.result.value.success then rep.result else None;
    }

    /** getGameResult in demo mode, given what generateDemoResult returned. */
    method TakeDemo(d: Result<(GL.GameResult, nat)>, rng: GL.Rng) returns (r: Option<GL.GameResult>)
      modifies this
      ensures (Model(), r) == A.TakeDemo(old(Model()), d, rng)
    {
      match d
      case Throws(_) =>
        return None;
      case Ok((res, k)) =>
        draws := k;
        r := Validate(res, rng);
    }

    /** getGameResult, with the server's reply given. */
    method GetGameResult(reply: GL.GameResult, nowMs: int, rng: GL.Rng) returns (r: Option<GL.GameResult>)
      modifies this, user
      ensures (Model(), r) == A.GetGameResult(old(Model()), reply, nowMs, rng)
    {
      if demoMode {
        r := TakeDemo(GL.DemoResult(gifts, settings, UD.BetName(selectedBet), rng, draws, nowMs), rng);
        return;
      }
      if !reply.success && reply.cooldown {
        return None;
      }
      if reply.success && reply.exp.Some? {
        user.SetExp(reply.exp);
      }
      r := Validate(reply, rng);
    }

    /** The spin-completion callback of app.js. */
    method HandleSpinCompletion(success: bool, giftId: Option<string>, gift: Option<GL.Gift>, rng: GL.Rng)
      returns (threw: bool)
      modifies this, user, reel
      ensures (Model(), threw) == A.HandleSpinCompletion(old(Model()), success, giftId, gift, rng)
    {
      if success && Truthy(giftId) && gift.Some? {
        winModal := true;
      }
      threw := FinishSpinning(success, rng);
    }

    /** The part of spinLottery after the charge. */
    method Launch(r: GL.GameResult, rng: GL.Rng)
      modifies this, user, anim, reel
      ensures Model() == A.Launch(old(Model()), r, rng)
    {
      if r.sequence.None? || !Truthy(r.winningGiftId) || r.winningGift.None? {
        var _ := FinishSpinning(false, rng);
        return;
      }
      var cb := An.AnimateLottery(anim, reel, r.sequence, r.winningGiftId, r.winningGiftType, r.winningGift, gifts);
      match cb
      case Finished(s, id, g) =>
        var _ := HandleSpinCompletion(s, id, g, rng);
      case NoCallback =>
    }

    /** spinLottery up to the animation; `b` says how far it got, and holds the state it leaves. */
    method BeginSpin(e: UD.BalanceElement, reply: GL.GameResult, nowMs: int, rng: GL.Rng) returns (b: A.Begun)
      modifies this, user
      ensures b == A.Begin(old(Model()), e, reply, nowMs, rng) && b.w == Model()
    {
      var gate := UD.CanStartSpin(isSpinning, demoMode, UD.ActualBalance(e), selectedBet);
      if gate.Busy? {
        return A.Blocked(Model());
      }
      if gate.ShortOf? {
        pendingBet := Some(selectedBet);
        return A.Blocked(Model());
      }
      b := Proceed(reply, nowMs, rng);
    }

    /** The part of spinLottery past the gate, up to the animation. */
    method Proceed(reply: GL.GameResult, nowMs: int, rng: GL.Rng) returns (b: A.Begun)
      modifies this, user
      ensures b == A.Proceed(old(Model()), reply, nowMs, rng) && b.w == Model()
    {
      isSpinning := true;
      lastGameResult := None;
      var res := GetGameResult(reply, nowMs, rng);
      if res.None? {
        return A.NoResult(Model());
      }
      var _ := user.UpdateUserStatsForSpin(demoMode, selectedBet);
      lastGameResult := res;
      return A.Charged(Model(), res.value);
    }

    /** spinLottery. */
    method SpinLottery(e: UD.BalanceElement, reply: GL.GameResult, nowMs: int, rng: GL.Rng)
      modifies this, user, anim, reel
      ensures Model() == A.SpinLottery(old(Model()), e, reply, nowMs, rng)
    {
      var b := BeginSpin(e, reply, nowMs, rng);
      match b
      case Blocked(_) =>
      case NoResult(_) =>
        var _ := FinishSpinning(false, rng);
      case Charged(_, r) =>
        Launch(r, rng);
    }

    /** `selectedBet = pendingBet`. */
    method TakePendingBet(bet: UD.Bet)
      modifies this
      ensures Model() == old(Model()).(game := old(Model()).game.(selectedBet := bet))
    {
      selectedBet := bet;
    }

    /** `pendingBet = null`. */
    method DropPendingBet()
      modifies this
      ensures Model() == old(Model()).(game := old(Model()).game.(pendingBet := None))
    {
      pendingBet := None;
    }

    /** window.spinLottery. */
    method WindowSpinLottery(e: UD.BalanceElement, reply: GL.GameResult, nowMs: int, rng: GL.Rng)
      modifies this, user, anim, reel
      ensures Model() == A.WindowSpinLottery(old(Model()), e, reply, nowMs, rng)
    {
      if pendingBet.Some? {
        TakePendingBet(pendingBet.value);
        SpinLottery(e, reply, nowMs, rng);
        DropPendingBet();
      } else {
        SpinLottery(e, reply, nowMs, rng);
      }
    }

    /** The browser runs completion timer `h`. */
    method FireSpinTimer(h: nat, rng: GL.Rng)
      modifies this, user, anim, reel
      ensures Model() == A.FireSpinTimer(old(Model()), h, rng)
    {
      var f := An.FireSpinTimer(anim, reel, h);
      match f
      case NotScheduled =>
      case Ran(NoCallback) =>
        anim.ReleaseSpinTimer();
      case Ran(Finished(s, id, g)) =>
        var threw := HandleSpinCompletion(s, id, g, rng);
        if !threw {
          anim.ReleaseSpinTimer();
        }
    }

    /** The click handler of the skip button. */
    method SkipAnimation(now: int, rng: GL.Rng)
      modifies this, user, anim, reel
      ensures Model() == A.SkipAnimation(old(Model()), now, rng)
    {
      if !user.fastPlay || !isSpinning {
        return;
      }
      if lastGameResult.None? || !Truthy(lastGameResult.value.winningGiftId) || lastGameResult.value.winningGift.None? {
        return;
      }
      var r := lastGameResult.value;
      anim.MarkAnimationSkipped(now);
      reel.PositionLotteryForWinningItem(r.sequence);
      winModal := true;
      var _ := FinishSpinning(true, rng);
    }

    /** The click handler of a bet option. */
    method SelectBet(b: UD.Bet, rng: GL.Rng)
      modifies this, reel
      ensures Model() == A.SelectBet(old(Model()), b, rng)
    {
      if isSpinning || selectedBet == b {
        return;
      }
      selectedBet := b;
      SetupLotteryDisplay(true, rng);
    }

    /** The click handler of the demo toggle. */
    method ToggleDemo()
      modifies this
      ensures Model() == A.ToggleDemo(old(Model()))
    {
      if isSpinning {
        return;
      }
      demoMode := !demoMode;
    }

    /** The change handler of the demo checkbox. */
    method DemoCheckbox(checked: bool)
      modifies this
      ensures Model() == A.DemoCheckbox(old(Model()), checked)
    {
      if isSpinning {
        return;
      }
      demoMode := checked;
    }

    /** The win modal is closed. */
    method CloseWinModal()
      modifies this
      ensures Model() == A.CloseWinModal(old(Model()))
    {
      winModal := false;
    }

    /** One group's forEach: announce and flag each ready task not flagged yet. */
    method AnnounceGroup(tasks: seq<A.Task>, grp: A.Group) returns (ns: seq<A.Notice>)
      modifies this
      ensures (ns, shown) == A.Announce(tasks, grp, old(shown), |tasks|)
      ensures Model() == old(Model()).(game := old(State()).(shown := shown))
    {
      ns := [];
      for i := 0 to |tasks|
        invariant (ns, shown) == A.Announce(tasks, grp, old(shown), i)
        invariant Model() == old(Model()).(game := old(State()).(shown := shown))
      {
        var t := tasks[i];
        if A.InGroup(t, grp) && t.id !in shown {
          ns := ns + [A.Notice(t.id, A.KindOf(t, grp))];
          shown := shown + {t.id};
        }
      }
    }

    /** The reset forEach: clear the flag of each resettable task with a truthy id. */
    method ResetNotificationFlags(tasks: seq<A.Task>)
      modifies this
      ensures shown == A.Resets(tasks, old(shown), |tasks|)
      ensures Model() == old(Model()).(game := old(State()).(shown := shown))
    {
      for i := 0 to |tasks|
        invariant shown == A.Resets(tasks, old(shown), i)
        invariant Model() == old(Model()).(game := old(State()).(shown := shown))
      {
        var t := tasks[i];
        if A.Resettable(t) && t.id in shown && t.id != "" {
          shown := shown - {t.id};
        }
      }
    }

    /** updateTasksProgress with the loader's answer (None when it threw); returns the notices shown, in order. */
    method UpdateTasksProgress(reply: Option<A.TasksReply>) returns (notices: seq<A.Notice>)
      modifies this
      ensures (Model(), notices) == A.UpdateTasksProgress(old(Model()), reply)
    {
      if demoMode || reply.None? || !reply.value.success {
        return [];
      }
      var tasks := reply.value.tasks;
      var n1 := AnnounceGroup(tasks, A.PlayGames);
      var n2 := AnnounceGroup(tasks, A.Collection);
      var n3 := AnnounceGroup(tasks, A.ExperienceTasks);
      ResetNotificationFlags(tasks);
      notices := n1 + n2 + n3;
    }
  }
}

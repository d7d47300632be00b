// The decisions renderTaskCard (TaskCard.js) takes for a task: whether a
// countdown is shown and armed in the timer registry, which action button
// appears and with what label, what a click does, the progress text, the
// localisation keys, and isUrgent.
module TaskCard {
  import opened Js
  import TM = TimerManager
  import TS = TimerStore

  /**
   * The fields of a task the card reads. `timerEnd` is `task.timer.endTime`
   * and `waitUntil` is `task.wait_until`, as milliseconds, None when absent
   * or falsy; `progress`, `currentCount` and `requiredCount` are None when
   * the task has no such property.
   */
  datatype CardTask = CardTask(
    id: string,
    status: Option<string>,
    verifierType: Option<string>,
    activityType: Option<string>,
    inventoryType: Option<string>,
    timerEnd: Option<int>,
    waitUntil: Option<int>,
    progress: Option<int>,
    currentCount: Option<int>,
    requiredCount: Option<int>,
    actionText: Option<string>)

  predicate Completed(t: CardTask) { t.status == Some("completed") }

  predicate Subscription(t: CardTask) { t.verifierType == Some("subscription") }

  /** `task.progress >= 100`; an absent progress compares false. */
  predicate ReachedFull(t: CardTask) { t.progress.Some? && t.progress.value >= 100 }

  /** `task.progress < 100`; an absent progress compares false too. */
  predicate BelowFull(t: CardTask) { t.progress.Some? && t.progress.value < 100 }

  /** hasRegularTimer: a timer end time, or a wait_until on a task that is not a subscription. */
  predicate HasRegularTimer(t: CardTask)
  {
    t.timerEnd.Some? || (t.waitUntil.Some? && !Subscription(t))
  }

  /** shouldShowTimer. */
  predicate ShouldShowTimer(t: CardTask)
  {
    HasRegularTimer(t) && !Completed(t) && (!ReachedFull(t) || Subscription(t))
  }

  /** `task.wait_until || task.timer.endTime`, the deadline given to setTimer. */
  function TimerDeadline(t: CardTask): int
    requires HasRegularTimer(t)
  {
    if t.waitUntil.Some? then t.waitUntil.value else t.timerEnd.value
  }

  /** The registry after the card is built: setTimer(task.id, deadline, card) when the timer is shown. */
  function ArmTimer(r: TM.Registry, t: CardTask, now: int): TM.Registry
  {
    if ShouldShowTimer(t) then TM.SetTimer(r, t.id, TimerDeadline(t), now, true).0 else r
  }

  datatype Label = Claim | Subscribe | Custom(text: string) | DoTask

  /** The label chosen for the action button. */
  function ButtonLabel(t: CardTask): Label
  {
    if t.verifierType == Some("activity") && t.activityType == Some("login") then Claim
    else if t.status == Some("in_progress") && ReachedFull(t) then Claim
    else if Subscription(t) then (if t.status == Some("in_progress") then Claim else Subscribe)
    else if Truthy(t.actionText) then Custom(t.actionText.value)
    else DoTask
  }

  /** shouldHideButton: a counted task below 100 %. */
  predicate ShouldHideButton(t: CardTask)
  {
    (t.activityType == Some("play_games") && BelowFull(t))
    || (t.inventoryType == Some("gift_collection") && BelowFull(t))
    || (t.verifierType == Some("experience") && BelowFull(t))
  }

  /** What the card holds in the place of the action button. */
  datatype ButtonView = NoButton | HiddenButton(caption: Label) | ShownButton(caption: Label)

  function Button(t: CardTask): ButtonView
  {
    if Completed(t) || ShouldHideButton(t) then NoButton
    else if ShouldShowTimer(t) && !ReachedFull(t) then HiddenButton(ButtonLabel(t))
    else ShownButton(ButtonLabel(t))
  }

  /** shouldShowLoader. */
  predicate ShouldShowLoader(t: CardTask)
  {
    t.verifierType == Some("activity") || t.verifierType == Some("experience")
    || (Subscription(t) && (t.status == Some("in_progress") || t.status == Some("check_manually")))
  }

  /** What a click on the button does. */
  datatype Click = GoHome(url: string) | WithLoader | Plain

  /** The click handler; `devMode` is `window.isDevMode || pathname.includes('/dev/')`. */
  function OnClick(t: CardTask, devMode: bool): Click
  {
    if t.activityType == Some("play_games") && !Completed(t) && BelowFull(t) then GoHome(if devMode then "/dev/" else "/")
    else if ShouldShowLoader(t) then WithLoader
    else Plain
  }

  /** `s.replace(/-/g, '_')`. */
  function Underscored(s: string): (r: string)
    ensures |r| == |s|
    ensures forall i :: 0 <= i < |s| ==> r[i] == (if s[i] == '-' then '_' else s[i])
  {
    if s == [] then [] else [if s[0] == '-' then '_' else s[0]] + Underscored(s[1..])
  }

  function TitleKey(id: string): string { "tasks.task_titles." + Underscored(id) }

  function DescriptionKey(id: string): string { "tasks.task_descriptions." + Underscored(id) }

  /** The progress text, None for a task without progress. */
  function ProgressText(t: CardTask): Option<string>
  {
    if t.progress.None? then None
    else if (t.activityType == Some("play_games") || t.inventoryType == Some("gift_collection") || t.verifierType == Some("experience"))
      && t.currentCount.Some? && t.requiredCount.Some? then
      if t.progress.value == 100 then Some("100%")
      else Some(IntToString(t.currentCount.value) + "/" + IntToString(t.requiredCount.value))
    else Some(IntToString(t.progress.value) + "%")
  }

  const HourMs := 1000 * 60 * 60

  /** isUrgent(endTime) at time `now`: between zero (excluded) and six hours left. */
  predicate IsUrgent(endTime: Option<int>, now: int)
  {
    if endTime.None? then false
    else
      var hoursDiff := (endTime.value - now) as real / HourMs as real;
      hoursDiff > 0.0 && hoursDiff <= 6.0
  }

  /** What the card shows. */
  datatype Card = Card(
    timerShown: bool,
    button: ButtonView,
    progressText: Option<string>,
    burning: bool,
    titleKey: string)

  function CardOf(t: CardTask, now: int): Card
  {
    Card(ShouldShowTimer(t), Button(t), ProgressText(t), t.timerEnd.Some? && IsUrgent(t.timerEnd, now), TitleKey(t.id))
  }

  /** renderTaskCard: builds the card and arms its countdown in the registry. */
  method RenderTaskCard(store: TS.TimerRegistry, t: CardTask, now: int) returns (card: Card)
    requires store.Valid()
    modifies store
    ensures store.Valid() && store.Model() == ArmTimer(old(store.Model()), t, now)
    ensures card == CardOf(t, now)
  {
    var showTimer := ShouldShowTimer(t);
    if showTimer {
      var _ := store.SetTimer(t.id, TimerDeadline(t), now, true);
    }
    var burning := t.timerEnd.Some? && IsUrgent(t.timerEnd, now);
    card := Card(showTimer, Button(t), ProgressText(t), burning, TitleKey(t.id));
  }

  // ---------------------------------------------------------------------
  // Properties.

  /** A completed task shows no timer and no button, and leaves the timer registry as it was. */
  lemma CompletedShowsNothing(t: CardTask, r: TM.Registry, now: int)
    requires Completed(t)
    ensures !CardOf(t, now).timerShown && CardOf(t, now).button == NoButton
    ensures ArmTimer(r, t, now) == r
  {
  }

  /**
   * A countdown needs a deadline of its own (a subscription's wait_until
   * does not count), and a task at 100 % keeps its countdown only when it
   * is a subscription; whenever one is shown, the registry then holds the
   * task with that deadline or, when it has passed, its expired marker.
   */
  lemma TimerRule(t: CardTask, r: TM.Registry, now: int)
    requires TM.Consistent(r)
    ensures Subscription(t) ==> (ShouldShowTimer(t) <==> t.timerEnd.Some? && !Completed(t))
    ensures ReachedFull(t) && !Subscription(t) ==> !ShouldShowTimer(t)
    ensures ShouldShowTimer(t) && t.id != "" && TimerDeadline(t) != 0 && TimerDeadline(t) > now ==>
      t.id in ArmTimer(r, t, now).deadlines && ArmTimer(r, t, now).deadlines[t.id] == TM.At(TimerDeadline(t)) && t.id in ArmTimer(r, t, now).tickers
    ensures ShouldShowTimer(t) && t.id != "" && TimerDeadline(t) != 0 && TimerDeadline(t) <= now ==>
      TM.HasExpiredMarker(ArmTimer(r, t, now), t.id)
  {
    if ShouldShowTimer(t) && t.id != "" && TimerDeadline(t) != 0 {
      if TimerDeadline(t) > now {
        TM.FutureDeadlineRecorded(r, t.id, TimerDeadline(t), now, true);
      } else {
        TM.PastDeadlineExpires(r, t.id, TimerDeadline(t), now, true, now, false);
      }
    }
  }

  /**
   * The button's label: login activity and a finished task in progress
   * claim; a subscription claims once in progress and otherwise asks to
   * subscribe; any other task shows its own text or "do task".
   */
  lemma LabelRule(t: CardTask)
    ensures t.verifierType == Some("activity") && t.activityType == Some("login") ==> ButtonLabel(t) == Claim
    ensures t.status == Some("in_progress") && ReachedFull(t) ==> ButtonLabel(t) == Claim
    ensures ButtonLabel(t) == Subscribe <==> Subscription(t) && t.status != Some("in_progress")
    ensures ButtonLabel(t).Custom? ==> !Subscription(t) && Truthy(t.actionText)
    ensures Button(t) != NoButton ==> Button(t).caption == ButtonLabel(t)
  {
  }

  /**
   * Below 100 % a shown countdown and a visible button never appear
   * together, and counted tasks below 100 % have no button at all.
   */
  lemma TimerHidesButton(t: CardTask)
    ensures ShouldShowTimer(t) && !ReachedFull(t) ==> !Button(t).ShownButton?
    ensures ShouldHideButton(t) ==> Button(t) == NoButton
    ensures Button(t).HiddenButton? ==> ShouldShowTimer(t) && !Completed(t)
  {
  }

  /**
   * The click handler's jump to the main page for an unfinished play_games
   * task can never run: such a task has no button to click.
   */
  lemma HomeJumpUnreachable(t: CardTask, devMode: bool)
    ensures Button(t) != NoButton ==> !OnClick(t, devMode).GoHome?
  {
  }

  /**
   * The loader spins for activity and experience tasks and for
   * subscriptions being checked; a subscription not yet started gets none.
   */
  lemma LoaderRule(t: CardTask, devMode: bool)
    ensures Subscription(t) && t.status != Some("in_progress") && t.status != Some("check_manually") ==> !ShouldShowLoader(t)
    ensures Button(t) != NoButton && ShouldShowLoader(t) ==> OnClick(t, devMode) == WithLoader
  {
  }

  /**
   * Exactly 100 reads "100%" whatever the task; counted tasks below that
   * read "current/required"; the rest read the percentage.
   */
  lemma ProgressTextRule(t: CardTask)
    ensures t.progress == Some(100) ==> ProgressText(t) == Some("100%")
    ensures t.progress.Some? && t.progress != Some(100) && t.activityType == Some("play_games")
      && t.currentCount.Some? && t.requiredCount.Some?
      ==> ProgressText(t) == Some(IntToString(t.currentCount.value) + "/" + IntToString(t.requiredCount.value))
    ensures (t.progress.Some? && t.activityType != Some("play_games") && t.inventoryType != Some("gift_collection")
      && t.verifierType != Some("experience")) ==> ProgressText(t) == Some(IntToString(t.progress.value) + "%")
  {
    HundredText();
  }

  lemma HundredText()
    ensures IntToString(100) + "%" == "100%"
  {
    assert 100 / 10 == 10 && 100 % 10 == 0 && 10 / 10 == 1 && 10 % 10 == 0;
    assert NatToString(1) == "1";
    assert NatToString(10) == "1" + [DigitChar(0)] == "10";
    assert NatToString(100) == "10" + [DigitChar(0)] == "100";
  }

  /** Urgent exactly when the end is later than now by at most six hours, to the millisecond. */
  lemma UrgentWindow(endTime: int, now: int)
    ensures IsUrgent(Some(endTime), now) <==> 0 < endTime - now <= 6 * HourMs
  {
    var d := (endTime - now) as real;
    var h := d / HourMs as real;
    assert d == h * HourMs as real;
  }

  /** The localisation keys hold no '-', and every other character of the id is kept. */
  lemma KeysUnderscored(id: string)
    ensures '-' !in Underscored(id) && Underscored(Underscored(id)) == Underscored(id)
    ensures forall i :: 0 <= i < |id| && id[i] != '-' ==> Underscored(id)[i] == id[i]
    ensures TitleKey(id)[..18] == "tasks.task_titles." && TitleKey(id)[18..] == Underscored(id)
  {
    var u := Underscored(id);
    forall i | 0 <= i < |u|
      ensures u[i] != '-'
    {
    }
  }
}

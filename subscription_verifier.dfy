// SubscriptionVerifier.js: what checkSubscription decides once the server
// has answered (and the countdown it may arm in the timer registry), and
// where openChannelForSubscription sends the user.
module SubscriptionVerifier {
  import opened Js
  import TM = TimerManager
  import TS = TimerStore

  // ---------------------------------------------------------------------
  // checkSubscription.

  /**
   * The server's answer as the code reads it: `response.ok`, then the
   * truthiness of `success`, `already_completed` and `is_subscribed`, and
   * `wait_until` as milliseconds (None when absent).
   */
  datatype Reply = Reply(ok: bool, success: bool, alreadyCompleted: bool, isSubscribed: bool, waitUntil: Option<int>)

  /** `userId` from initDataUnsafe.user.id is truthy. */
  predicate KnownUser(userId: Option<int>)
  {
    userId.Some? && userId.value != 0
  }

  /** `result.wait_until` is truthy. */
  predicate HasWait(rp: Reply)
  {
    rp.waitUntil.Some? && rp.waitUntil.value != 0
  }

  /** `task.subscriptionInfo?.channelUsername || "@GiftGo"`. */
  function ChannelOf(channelUsername: Option<string>): (c: string)
    ensures Truthy(channelUsername) ==> c == channelUsername.value
    ensures !Truthy(channelUsername) ==> c == "@GiftGo"
  {
    Or(channelUsername, Some("@GiftGo")).value
  }

  const CheckPath := "/api/tasks/check_subscription"

  /** The POST checkSubscription sends. */
  datatype Request = Request(url: string, userId: int, taskId: string, channel: string, forceCheck: bool, initDataHeader: Option<string>)

  function SubscriptionRequest(devMode: bool, userId: int, taskId: string, channelUsername: Option<string>,
                               forceCheck: bool, initData: Option<string>): (q: Request)
    ensures devMode ==> q.url == "/dev" + CheckPath
    ensures !devMode ==> q.url == CheckPath
    ensures q.initDataHeader.Some? <==> Truthy(initData)
    ensures q.initDataHeader.Some? ==> q.initDataHeader == initData
    ensures q.channel == ChannelOf(channelUsername) && q.userId == userId && q.taskId == taskId && q.forceCheck == forceCheck
  {
    Request(if devMode then "/dev" + CheckPath else CheckPath,
            userId, taskId, ChannelOf(channelUsername), forceCheck,
            if Truthy(initData) then initData else None)
  }

  /**
   * checkSubscription at time `now`: the timer registry afterwards and the
   * answer. `reply` is None when fetch or response.json() threw; `cardShown`
   * says whether the task's card is on the page.
   */
  function CheckSubscription(r: TM.Registry, userId: Option<int>, taskId: string, reply: Option<Reply>,
                             now: int, cardShown: bool): (TM.Registry, bool)
  {
    if !KnownUser(userId) || reply.None? then (r, false)
    else
      var rp := reply.value;
      if !rp.ok || !rp.success then (r, false)
      else if rp.alreadyCompleted then (r, true)
      else if rp.isSubscribed then
        var (r1, existing) := TM.CheckTimer(r, taskId, now, false);
        if HasWait(rp) && !existing.IsActive() then (TM.SetTimer(r1, taskId, rp.waitUntil.value, now, cardShown).0, true)
        else (r1, true)
      else (r, false)
  }

  /** checkSubscription carried out against the page's timer registry. */
  method CheckSubscriptionOn(store: TS.TimerRegistry, userId: Option<int>, taskId: string, reply: Option<Reply>,
                             now: int, cardShown: bool) returns (subscribed: bool)
    requires store.Valid()
    modifies store
    ensures store.Valid()
    ensures (store.Model(), subscribed) == CheckSubscription(old(store.Model()), userId, taskId, reply, now, cardShown)
  {
    if !KnownUser(userId) {
      return false;
    }
    if reply.None? {
      return false;
    }
    var rp := reply.value;
    if !rp.ok {
      return false;
    }
    if !rp.success {
      return false;
    }
    if rp.alreadyCompleted {
      return true;
    }
    if rp.isSubscribed {
      var existing := store.CheckTimer(taskId, now, false);
      if HasWait(rp) && !existing.IsActive() {
        var _ := store.SetTimer(taskId, rp.waitUntil.value, now, cardShown);
        return true;
      }
      return true;
    }
    return false;
  }

  /** The answer is yes exactly when a known user got a successful reply saying completed or subscribed. */
  lemma SubscriptionVerdict(r: TM.Registry, userId: Option<int>, taskId: string, reply: Option<Reply>, now: int, cardShown: bool)
    ensures CheckSubscription(r, userId, taskId, reply, now, cardShown).1
      <==> KnownUser(userId) && reply.Some? && reply.value.ok && reply.value.success
           && (reply.value.alreadyCompleted || reply.value.isSubscribed)
  {
  }

  /** A refusal, and an already-completed task, leave the timer registry untouched. */
  lemma RefusalTouchesNoTimer(r: TM.Registry, userId: Option<int>, taskId: string, reply: Option<Reply>, now: int, cardShown: bool)
    ensures var (r', yes) := CheckSubscription(r, userId, taskId, reply, now, cardShown);
      (!yes || reply.value.alreadyCompleted) ==> r' == r
  {
  }

  /**
   * A timer that is running is never re-armed: after the check, looking at
   * the task's timer again at the same moment shows the same deadline.
   */
  lemma RunningTimerKept(r: TM.Registry, userId: Option<int>, taskId: string, rp: Reply, now: int, cardShown: bool)
    requires TM.Consistent(r)
    requires TM.CheckTimer(r, taskId, now, false).1.Running?
    ensures var r' := CheckSubscription(r, userId, taskId, Some(rp), now, cardShown).0;
      TM.CheckTimer(r', taskId, now, false).1 == TM.CheckTimer(r, taskId, now, false).1
  {
    var (r1, st) := TM.CheckTimer(r, taskId, now, false);
    CheckTwice(r, taskId, now);
  }

  /** Checking a running timer twice at the same moment changes nothing the second time. */
  lemma CheckTwice(r: TM.Registry, id: string, now: int)
    requires TM.CheckTimer(r, id, now, false).1.Running?
    ensures var (r1, st) := TM.CheckTimer(r, id, now, false);
      TM.CheckTimer(r1, id, now, false) == (r1, st)
  {
    var hd := TM.Hydrate(r, id);
    TM.RunningShape(r, id, now);
    TM.HydrateStable(r, id);
    TM.CheckAhead(hd.0, id, now);
  }

  /**
   * A subscribed user with a future `wait_until` and no running timer gets
   * a countdown to that moment, even when an old deadline had lapsed.
   */
  lemma WaitArmsTimer(r: TM.Registry, userId: Option<int>, taskId: string, rp: Reply, now: int, cardShown: bool)
    requires TM.Consistent(r) && taskId != "" && KnownUser(userId)
    requires rp.ok && rp.success && !rp.alreadyCompleted && rp.isSubscribed
    requires HasWait(rp) && rp.waitUntil.value > now
    requires !TM.CheckTimer(r, taskId, now, false).1.Running?
    ensures var (r', yes) := CheckSubscription(r, userId, taskId, Some(rp), now, cardShown);
      yes && taskId in r'.deadlines && r'.deadlines[taskId] == TM.At(rp.waitUntil.value)
      && (taskId in r'.tickers <==> cardShown)
  {
    var (r1, st) := TM.CheckTimer(r, taskId, now, false);
    TM.CheckTimerConsistent(r, taskId, now, false);
    TM.FutureDeadlineRecorded(r1, taskId, rp.waitUntil.value, now, cardShown);
  }

  // ---------------------------------------------------------------------
  // openChannelForSubscription.

  /** `pat` occurs in `s` at index `j`. */
  predicate OccursAt(s: string, pat: string, j: nat)
  {
    j + |pat| <= |s| && s[j..j + |pat|] == pat
  }

  /** String.prototype.indexOf(pat, i). */
  function IndexOfFrom(s: string, pat: string, i: nat): (r: Option<nat>)
    decreases |s| - i
    ensures r.Some? ==> i <= r.value && OccursAt(s, pat, r.value)
    ensures r.Some? ==> forall j :: i <= j < r.value ==> !OccursAt(s, pat, j)
    ensures r.None? ==> forall j :: i <= j ==> !OccursAt(s, pat, j)
  {
    if i + |pat| > |s| then None
    else if s[i..i + |pat|] == pat then Some(i)
    else IndexOfFrom(s, pat, i + 1)
  }

  function IndexOf(s: string, pat: string): Option<nat>
  {
    IndexOfFrom(s, pat, 0)
  }

  /** String.prototype.includes. */
  predicate Includes(s: string, pat: string)
  {
    IndexOf(s, pat).Some?
  }

  /** `s.split(pat)[1]` for a non-empty `pat` that occurs in `s`: the text after the first occurrence, up to the next. */
  function SecondPiece(s: string, pat: string): string
    requires Includes(s, pat)
  {
    var rest := s[IndexOf(s, pat).value + |pat|..];
    match IndexOf(rest, pat)
    case None => rest
    case Some(k) => rest[..k]
  }

  /** `s.replace(pat, with)` with a string pattern: the first occurrence only. */
  function ReplaceFirst(s: string, pat: string, with: string): string
  {
    match IndexOf(s, pat)
    case None => s
    case Some(i) => s[..i] + with + s[i + |pat|..]
  }

  const TmePrefix := "https://t.me/"
  const JoinPrefix := "telegram://join?invite="
  const ResolvePrefix := "telegram://resolve?domain="

  /** The address the fallback navigates to. */
  function FallbackTarget(link: string): (url: string)
    ensures !StartsWith(link, TmePrefix) ==> url == link
    ensures StartsWith(link, TmePrefix) ==> StartsWith(url, JoinPrefix) || StartsWith(url, ResolvePrefix)
  {
    if StartsWith(link, TmePrefix) then
      if Includes(link, "/+") then JoinPrefix + SecondPiece(link, "/+")
      else ResolvePrefix + ReplaceFirst(link, TmePrefix, "")
    else link
  }

  /** Which of Telegram.WebApp's openers exist, and whether the one called throws. */
  datatype Openers = Openers(openTelegramLink: bool, openLink: bool, throws: bool)

  datatype Opened = ViaTelegramLink(link: string) | ViaOpenLink(link: string) | Navigate(url: string)

  /** openChannelForSubscription(link); `webApp` is None when Telegram.WebApp is missing. */
  function OpenChannel(link: string, webApp: Option<Openers>): (o: Opened)
    ensures o.Navigate? <==> webApp.None? || webApp.value.throws || !(webApp.value.openTelegramLink || webApp.value.openLink)
    ensures o.ViaTelegramLink? || o.ViaOpenLink? ==> o.link == link
    ensures o.Navigate? ==> o.url == FallbackTarget(link)
    ensures o.ViaOpenLink? ==> !webApp.value.openTelegramLink
  {
    if webApp.Some? && !webApp.value.throws && webApp.value.openTelegramLink then ViaTelegramLink(link)
    else if webApp.Some? && !webApp.value.throws && webApp.value.openLink then ViaOpenLink(link)
    else Navigate(FallbackTarget(link))
  }

  /** The first occurrence of `pat` in `s` is at `i`. */
  lemma FirstOccurrence(s: string, pat: string, i: nat)
    requires OccursAt(s, pat, i)
    requires forall j :: 0 <= j < i ==> !OccursAt(s, pat, j)
    ensures IndexOf(s, pat) == Some(i)
  {
  }

  /** No "/+" starts inside the t.me prefix, whatever follows it. */
  lemma NoMarkInPrefix(tail: string, j: nat)
    requires j < 12
    ensures !OccursAt(TmePrefix + tail, "/+", j)
  {
    var s := TmePrefix + tail;
    assert s[j + 1] == TmePrefix[j + 1];
  }

  /** An invite link https://t.me/+H opens as telegram://join?invite=H. */
  lemma InviteLinkRewritten(h: string)
    requires !Includes(h, "/+")
    ensures FallbackTarget(TmePrefix + "+" + h) == JoinPrefix + h
  {
    var s := TmePrefix + "+" + h;
    assert s == TmePrefix + ("+" + h);
    forall j: nat | j < 12 ensures !OccursAt(s, "/+", j) {
      NoMarkInPrefix("+" + h, j);
    }
    assert s[12..14] == "/+";
    FirstOccurrence(s, "/+", 12);
    assert s[14..] == h;
    assert StartsWith(s, TmePrefix) by { assert s[..13] == TmePrefix; }
  }

  /** Any other https://t.me/name link opens as telegram://resolve?domain=name. */
  lemma ChannelLinkRewritten(name: string)
    requires name == [] || name[0] != '+'
    requires !Includes(name, "/+")
    ensures FallbackTarget(TmePrefix + name) == ResolvePrefix + name
  {
    var s := TmePrefix + name;
    forall j: nat ensures !OccursAt(s, "/+", j) {
      if j < 12 {
        NoMarkInPrefix(name, j);
      } else if j == 12 && |s| >= 14 {
        assert s[13] == name[0];
      } else if j >= 13 {
        assert !OccursAt(name, "/+", j - 13);
        if j + 2 <= |s| {
          assert s[j..j + 2] == name[j - 13..j - 11];
        }
      }
    }
    assert !Includes(s, "/+");
    assert s[..13] == TmePrefix;
    FirstOccurrence(s, TmePrefix, 0);
    assert ReplaceFirst(s, TmePrefix, "") == name by { assert s[13..] == name; }
  }
}

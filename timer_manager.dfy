// The countdown-timer registry behind task rewards (TimerManager.js).
// A task id's deadline is kept twice: in an in-memory Map (activeTimers)
// and in localStorage, which also holds an "expired" marker per task and
// the JSON list of active ids. Each shown timer has a one-second ticker,
// and a sweep runs every minute once the registry is initialised.
//
// The behaviour is given by functions over a value `Registry`; the class
// `TimerRegistry` at the end holds the same state in fields and carries
// out each operation step by step, proved equal to those functions.
module TimerManager {
  import opened Js
  import KeyList

  const DeadlinePrefix := "subscription_timer_"
  const ExpiredPrefix := "subscription_timer_expired_"
  const ActiveListKey := "active_subscription_timers"
  const TickMs := 1000
  const SweepMs := 60000

  function DeadlineKey(id: string): string { DeadlinePrefix + id }
  function ExpiredKey(id: string): string { ExpiredPrefix + id }

  /** A deadline in the in-memory Map: milliseconds, or NaN read from a stored value that is not a number. */
  datatype Deadline = At(ms: int) | NaN

  /** JavaScript truthiness of a Map value (0 and NaN are falsy). */
  predicate IsSet(d: Deadline) { d.At? && d.ms != 0 }

  /** `waitUntil <= now`, false for NaN. */
  predicate Due(d: Deadline, now: int) { d.At? && d.ms <= now }

  /** `waitUntil > now`, false for NaN. */
  predicate Later(d: Deadline, now: int) { d.At? && d.ms > now }

  /** parseInt of a stored deadline. */
  function ReadDeadline(s: string): Deadline
  {
    match ParseInt(s, 0)
    case Some(v) => At(v)
    case None => NaN
  }

  /**
   * The registry's state: localStorage, activeTimers (its keys in insertion
   * order, and its values), activeIntervals (the deadline each live ticker
   * counts down to) and whether the minute sweep is scheduled.
   */
  datatype Registry = Registry(
    storage: map<string, string>,
    order: seq<string>,
    deadlines: map<string, Deadline>,
    tickers: map<string, int>,
    sweeping: bool)

  predicate Distinct(ks: seq<string>)
  {
    forall i, j :: 0 <= i < j < |ks| ==> ks[i] != ks[j]
  }

  /** The key order lists each Map key exactly once. */
  predicate Consistent(r: Registry)
  {
    Distinct(r.order) && (forall k :: k in r.order ==> k in r.deadlines) && (forall k :: k in r.deadlines ==> k in r.order)
  }

  /** The registry of a freshly loaded page over an existing localStorage. */
  function PageLoad(storage: map<string, string>): (r: Registry)
    ensures Consistent(r)
  {
    Registry(storage, [], map[], map[], false)
  }

  function Without(ks: seq<string>, k: string): (r: seq<string>)
    ensures forall x :: x in r <==> x in ks && x != k
    ensures Distinct(ks) ==> Distinct(r)
  {
    if ks == [] then []
    else
      var rest := Without(ks[1..], k);
      if ks[0] == k then rest
      else
        assert Distinct(ks) ==> ks[0] !in ks[1..];
        [ks[0]] + rest
  }

  /** Map.prototype.set: a new key goes last, an existing key keeps its place. */
  function MapSet(r: Registry, id: string, d: Deadline): (r': Registry)
    ensures Consistent(r) ==> Consistent(r')
  {
    r.(order := if id in r.deadlines then r.order else r.order + [id],
       deadlines := r.deadlines[id := d])
  }

  /** Map.prototype.delete. */
  function MapDelete(r: Registry, id: string): (r': Registry)
    ensures Consistent(r) ==> Consistent(r')
  {
    r.(order := Without(r.order, id), deadlines := r.deadlines - {id})
  }

  /** saveActiveTimers: the JSON list of the Map's keys. */
  function Persist(r: Registry): (r': Registry)
  {
    r.(storage := r.storage[ActiveListKey := KeyList.Encode(r.order)])
  }

  /** clearTimer: drop the stored deadline, the Map entry and the ticker, then save the list. */
  function ClearTimer(r: Registry, id: string): (r': Registry)
    ensures Consistent(r) ==> Consistent(r')
  {
    Persist(MapDelete(r, id).(storage := r.storage - {DeadlineKey(id)}, tickers := r.tickers - {id}))
  }

  /** The registry clearTimer leaves, before the list is saved. */
  lemma ClearedRegistry(r: Registry, id: string, c: Registry)
    requires Consistent(r)
    requires c == Registry(r.storage - {DeadlineKey(id)}, Without(r.order, id), r.deadlines - {id}, r.tickers - {id}, r.sweeping)
    ensures ClearTimer(r, id) == Persist(c) && Consistent(Persist(c))
  {
  }

  /** setExpiredFlag: clear the timer, then write the expired marker. */
  function SetExpiredFlag(r: Registry, id: string): (r': Registry)
    ensures Consistent(r) ==> Consistent(r')
  {
    var c := ClearTimer(r, id);
    c.(storage := c.storage[ExpiredKey(id) := "true"])
  }

  /** renderTimer: replace the task's ticker by one counting down to `waitUntil`. */
  function StartTicker(r: Registry, id: string, waitUntil: int): Registry
  {
    r.(tickers := r.tickers[id := waitUntil])
  }

  /**
   * setTimer(id, waitUntil) at time `now`; `shown` says whether a task
   * element was passed, which starts the ticker.
   */
  function SetTimer(r: Registry, id: string, waitUntil: int, now: int, shown: bool): (res: (Registry, bool))
    ensures Consistent(r) ==> Consistent(res.0)
  {
    if id == "" || waitUntil == 0 then (r, false)
    else
      var c := ClearTimer(r, id);
      if waitUntil <= now then (SetExpiredFlag(c, id), true)
      else
        var s := Persist(MapSet(c.(storage := c.storage[DeadlineKey(id) := IntToString(waitUntil)]), id, At(waitUntil)));
        (if shown then StartTicker(s, id, waitUntil) else s, true)
  }

  /** The object checkTimer returns. */
  datatype TimerStatus = Expired | Running(timeLeft: int, waitUntil: int) | NoTimer
  {
    predicate IsExpired() { this.Expired? }
    predicate HasTimer() { this.Running? }
    predicate IsActive() { this.Running? }
    function TimeLeft(): int { if this.Running? then timeLeft else 0 }
  }

  /**
   * The deadline checkTimer works with: the Map's value when truthy, else
   * the stored value read into the Map (and the list saved), else whatever
   * falsy value the Map had.
   */
  function Hydrate(r: Registry, id: string): (res: (Registry, Deadline))
  {
    if id in r.deadlines && IsSet(r.deadlines[id]) then (r, r.deadlines[id])
    else if DeadlineKey(id) in r.storage && r.storage[DeadlineKey(id)] != "" then
      var d := ReadDeadline(r.storage[DeadlineKey(id)]);
      (Persist(MapSet(r, id, d)), d)
    else (r, NaN)
  }

  function HasExpiredMarker(r: Registry, id: string): bool
  {
    ExpiredKey(id) in r.storage && r.storage[ExpiredKey(id)] == "true"
  }

  /** Reading a stored deadline into the Map keeps each key listed once. */
  lemma HydrateConsistent(r: Registry, id: string)
    requires Consistent(r)
    ensures Consistent(Hydrate(r, id).0)
  {
  }

  /** checkTimer(id) at time `now`; `shown` as for SetTimer. */
  function CheckTimer(r: Registry, id: string, now: int, shown: bool): (res: (Registry, TimerStatus))
  {
    if HasExpiredMarker(r, id) then (r, Expired)
    else
      var (h, d) := Hydrate(r, id);
      if !IsSet(d) then (h, NoTimer)
      else if d.ms - now <= 0 then (SetExpiredFlag(h, id), Expired)
      else (if shown then StartTicker(h, id, d.ms) else h, Running(d.ms - now, d.ms))
  }

  /** checkTimer once no expired marker is found and the deadline is hydrated. */
  lemma CheckTimerAfterHydrate(r: Registry, id: string, now: int, shown: bool, h: Registry, d: Deadline)
    requires !HasExpiredMarker(r, id) && (h, d) == Hydrate(r, id)
    ensures !IsSet(d) ==> CheckTimer(r, id, now, shown) == (h, NoTimer)
    ensures IsSet(d) && d.ms - now <= 0 ==> CheckTimer(r, id, now, shown) == (SetExpiredFlag(h, id), Expired)
    ensures IsSet(d) && d.ms - now > 0 ==> CheckTimer(r, id, now, shown) == (if shown then StartTicker(h, id, d.ms) else h, Running(d.ms - now, d.ms))
  {
  }

  /** checkTimer keeps each key listed once. */
  lemma CheckTimerConsistent(r: Registry, id: string, now: int, shown: bool)
    requires Consistent(r)
    ensures Consistent(CheckTimer(r, id, now, shown).0)
  {
    HydrateConsistent(r, id);
  }

  // ---------------------------------------------------------------------
  // The one-second ticker (updateTimer inside renderTimer).

  /** padStart(2, '0') of a whole number. */
  function Pad2(n: nat): string
  {
    var s := NatToString(n);
    if |s| < 2 then "0" + s else s
  }

  /** The HH:MM:SS text for `t` milliseconds left. */
  function Countdown(t: nat): string
  {
    Pad2(t / 3600000) + ":" + Pad2(t % 3600000 / 60000) + ":" + Pad2(t % 60000 / 1000)
  }

  datatype Urgency = Normal | Soon | Critical

  /** Styling of expiration timers: critical within 30 minutes, soon within an hour. */
  function UrgencyOf(id: string, t: int): Urgency
  {
    if !StartsWith(id, "expiration_") then Normal
    else if t <= 1800000 then Critical
    else if t <= 3600000 then Soon
    else Normal
  }

  datatype TickOutcome = Idle | Showing(text: string, urgency: Urgency) | Lapsed

  /** One firing of the ticker for `id` at time `now`; a cancelled ticker never fires. */
  function Tick(r: Registry, id: string, now: int): (res: (Registry, TickOutcome))
    ensures Consistent(r) ==> Consistent(res.0)
  {
    if id !in r.tickers then (r, Idle)
    else
      var t := r.tickers[id] - now;
      if t <= 0 then (SetExpiredFlag(r.(tickers := r.tickers - {id}), id), Lapsed)
      else (r, Showing(Countdown(t), UrgencyOf(id, t)))
  }

  // ---------------------------------------------------------------------
  // Start-up reconciliation (initTimerManager).

  /** One saved id: a stored deadline still ahead goes into the Map, any other stored value expires it. */
  function ReconcileOne(r: Registry, id: string, now: int): (r': Registry)
    ensures Consistent(r) ==> Consistent(r')
  {
    var key := DeadlineKey(id);
    if key in r.storage && r.storage[key] != "" then
      var d := ReadDeadline(r.storage[key]);
      if Later(d, now) then MapSet(r, id, d)
      else r.(storage := r.storage[ExpiredKey(id) := "true"] - {key})
    else r
  }

  function Reconcile(r: Registry, ids: seq<string>, now: int): (r': Registry)
    ensures Consistent(r) ==> Consistent(r')
    decreases |ids|
  {
    if ids == [] then r else Reconcile(ReconcileOne(r, ids[0], now), ids[1..], now)
  }

  /** initTimerManager at time `now`; the saved list itself is not rewritten. */
  function Init(r: Registry, now: int): (r': Registry)
    ensures Consistent(r) ==> Consistent(r')
  {
    LoadSaved(r, now).(sweeping := true)
  }

  /** The first part of initTimerManager: reconcile the saved list, or drop it when it does not parse. */
  function LoadSaved(r: Registry, now: int): (r': Registry)
    ensures Consistent(r) ==> Consistent(r')
  {
    if ActiveListKey in r.storage && r.storage[ActiveListKey] != "" then
      match KeyList.Decode(r.storage[ActiveListKey])
      case None => r.(storage := r.storage - {ActiveListKey})
      case Some(ids) => Reconcile(r, ids, now)
    else r
  }

  // ---------------------------------------------------------------------
  // Sweeps and teardown.

  /** The Map keys, in order, whose deadline has passed. */
  function DueIds(ks: seq<string>, deadlines: map<string, Deadline>, now: int): (due: seq<string>)
    ensures forall k :: k in due <==> k in ks && k in deadlines && Due(deadlines[k], now)
    ensures Distinct(ks) ==> Distinct(due)
  {
    if ks == [] then []
    else
      var rest := DueIds(ks[1..], deadlines, now);
      if ks[0] in deadlines && Due(deadlines[ks[0]], now) then
        assert Distinct(ks) ==> ks[0] !in ks[1..];
        [ks[0]] + rest
      else rest
  }

  function ExpireAll(r: Registry, ids: seq<string>): (r': Registry)
    ensures Consistent(r) ==> Consistent(r')
    decreases |ids|
  {
    if ids == [] then r else ExpireAll(SetExpiredFlag(r, ids[0]), ids[1..])
  }

  /** checkAllTimers: expire every due entry, then save the list if any was due. */
  function CheckAllTimers(r: Registry, now: int): (r': Registry)
    ensures Consistent(r) ==> Consistent(r')
  {
    var due := DueIds(r.order, r.deadlines, now);
    var swept := ExpireAll(r, due);
    if due != [] then Persist(swept) else swept
  }

  /** cleanupExpiredTimers: collect the due entries, then expire each. */
  function CleanupExpiredTimers(r: Registry, now: int): (r': Registry)
    ensures Consistent(r) ==> Consistent(r')
  {
    ExpireAll(r, DueIds(r.order, r.deadlines, now))
  }

  /** destroyTimerManager: stop every ticker and the sweep, empty the Map. */
  function Destroy(r: Registry): (r': Registry)
    ensures Consistent(r')
  {
    r.(order := [], deadlines := map[], tickers := map[], sweeping := false)
  }

  // ---------------------------------------------------------------------
  // Storage keys.

  /** The three kinds of entry for one task never share a key. */
  lemma KeysDiffer(id: string)
    ensures DeadlineKey(id) != ExpiredKey(id)
    ensures DeadlineKey(id) != ActiveListKey && ExpiredKey(id) != ActiveListKey
  {
    assert |ExpiredKey(id)| == |DeadlineKey(id)| + 8;
    assert DeadlineKey(id)[0] == 's' && ExpiredKey(id)[0] == 's' && ActiveListKey[0] == 'a';
  }

  /** A deadline read into the Map is found there by the next read, and the task's marker is untouched. */
  lemma HydrateStable(r: Registry, id: string)
    ensures var hd := Hydrate(r, id);
      IsSet(hd.1) ==> Hydrate(hd.0, id) == hd && HasExpiredMarker(hd.0, id) == HasExpiredMarker(r, id)
  {
    if !(id in r.deadlines && IsSet(r.deadlines[id])) && DeadlineKey(id) in r.storage && r.storage[DeadlineKey(id)] != "" {
      var m := MapSet(r, id, ReadDeadline(r.storage[DeadlineKey(id)]));
      PersistKeepsMarker(m, id);
    }
  }

  /** A status is running exactly for an unmarked task whose deadline, once read, is ahead. */
  lemma RunningShape(r: Registry, id: string, now: int)
    ensures var hd := Hydrate(r, id);
      CheckTimer(r, id, now, false).1.Running? <==> !HasExpiredMarker(r, id) && IsSet(hd.1) && hd.1.ms > now
    ensures var hd := Hydrate(r, id);
      CheckTimer(r, id, now, false).1.Running? ==> CheckTimer(r, id, now, false) == (hd.0, Running(hd.1.ms - now, hd.1.ms))
  {
    var hd := Hydrate(r, id);
    var res := CheckTimer(r, id, now, false);
    if HasExpiredMarker(r, id) {
      assert res == (r, Expired);
    } else if !IsSet(hd.1) {
      assert res == (hd.0, NoTimer);
    } else if hd.1.ms - now <= 0 {
      assert res.1 == Expired;
    } else {
      CheckAhead(r, id, now);
    }
  }

  /** Checking an unmarked task whose deadline, once read, is ahead: running, with the hydrated registry. */
  lemma CheckAhead(r: Registry, id: string, now: int)
    requires !HasExpiredMarker(r, id) && IsSet(Hydrate(r, id).1) && Hydrate(r, id).1.ms > now
    ensures var hd := Hydrate(r, id);
      CheckTimer(r, id, now, false) == (hd.0, Running(hd.1.ms - now, hd.1.ms))
  {
  }

  /** Saving the key list leaves every task's expired marker as it was. */
  lemma PersistKeepsMarker(r: Registry, id: string)
    ensures HasExpiredMarker(Persist(r), id) == HasExpiredMarker(r, id)
  {
    KeysDiffer(id);
  }

  /**
   * The expired prefix extends the deadline prefix, so the marker key of
   * task `a` is the deadline key of task "expired_" + a.
   */
  lemma MarkerAliasesDeadline(a: string, b: string)
    ensures ExpiredKey(a) == DeadlineKey(b) <==> b == "expired_" + a
  {
    var n := |DeadlinePrefix|;
    assert ExpiredKey(a) == DeadlinePrefix + ("expired_" + a);
    if ExpiredKey(a) == DeadlineKey(b) {
      assert ExpiredKey(a)[n..] == "expired_" + a;
      assert DeadlineKey(b)[n..] == b;
    }
  }

  lemma DeadlineKeyInjective(a: string, b: string)
    ensures DeadlineKey(a) == DeadlineKey(b) ==> a == b
  {
    if DeadlineKey(a) == DeadlineKey(b) {
      assert DeadlineKey(a)[|DeadlinePrefix|..] == a;
      assert DeadlineKey(b)[|DeadlinePrefix|..] == b;
    }
  }

  /** No task id in `ks` is "expired_" followed by another id in `ks`. */
  predicate KeysApart(ks: seq<string>)
  {
    forall a, b :: a in ks && b in ks ==> ExpiredKey(a) != DeadlineKey(b)
  }

  /** The task reads as expired and has no stored deadline. */
  predicate Settled(r: Registry, id: string)
  {
    HasExpiredMarker(r, id) && DeadlineKey(id) !in r.storage
  }

  // ---------------------------------------------------------------------
  // setTimer, clearTimer, setExpiredFlag, checkTimer.

  /** A falsy task id or deadline is refused and nothing changes. */
  lemma FalsyTimerRefused(r: Registry, id: string, waitUntil: int, now: int, shown: bool)
    requires id == "" || waitUntil == 0
    ensures SetTimer(r, id, waitUntil, now, shown) == (r, false)
  {
  }

  /** A deadline already passed marks the task expired at once and leaves no timer behind. */
  lemma PastDeadlineExpires(r: Registry, id: string, waitUntil: int, now: int, shown: bool, later: int, shown2: bool)
    requires id != "" && waitUntil != 0 && waitUntil <= now
    ensures var (r', ok) := SetTimer(r, id, waitUntil, now, shown);
      ok && Settled(r', id) && id !in r'.deadlines && id !in r'.tickers
      && CheckTimer(r', id, later, shown2) == (r', Expired)
  {
    KeysDiffer(id);
  }

  /**
   * A future deadline is stored as its decimal text and put in the Map,
   * and the saved list reads back as exactly the Map's keys.
   */
  lemma FutureDeadlineRecorded(r: Registry, id: string, waitUntil: int, now: int, shown: bool)
    requires Consistent(r)
    requires id != "" && waitUntil != 0 && waitUntil > now
    ensures var (r', ok) := SetTimer(r, id, waitUntil, now, shown);
      ok && Consistent(r')
      && r'.storage[DeadlineKey(id)] == IntToString(waitUntil)
      && ReadDeadline(r'.storage[DeadlineKey(id)]) == At(waitUntil)
      && r'.deadlines[id] == At(waitUntil)
      && (id in r'.tickers <==> shown)
      && KeyList.Decode(r'.storage[ActiveListKey]) == Some(r'.order)
      && (forall k :: k in r'.order <==> k in r'.deadlines)
  {
    var (r', ok) := SetTimer(r, id, waitUntil, now, shown);
    KeysDiffer(id);
    KeyList.DecodeEncode(r'.order);
    ParseIntOfIntToString(waitUntil);
  }

  /** Setting a timer and reading it back: running with the time left until it passes, then expired. */
  lemma SetThenCheck(r: Registry, id: string, waitUntil: int, now: int, shown: bool, later: int, shown2: bool)
    requires Consistent(r) && !HasExpiredMarker(r, id)
    requires id != "" && waitUntil != 0 && waitUntil > now
    ensures CheckTimer(SetTimer(r, id, waitUntil, now, shown).0, id, later, shown2).1
      == if waitUntil <= later then Expired else Running(waitUntil - later, waitUntil)
  {
    var r' := SetTimer(r, id, waitUntil, now, shown).0;
    KeysDiffer(id);
    assert r'.deadlines[id] == At(waitUntil);
    assert !HasExpiredMarker(r', id);
    CheckLoaded(r', id, waitUntil, later, shown2);
  }

  /** setTimer never removes an expired marker: a re-armed expired task still reads as expired, and the read changes nothing. */
  lemma RearmedExpiredStaysExpired(r: Registry, id: string, waitUntil: int, now: int, shown: bool, later: int, shown2: bool)
    requires HasExpiredMarker(r, id)
    ensures var r' := SetTimer(r, id, waitUntil, now, shown).0;
      HasExpiredMarker(r', id) && CheckTimer(r', id, later, shown2) == (r', Expired)
  {
    KeysDiffer(id);
  }

  lemma {:induction false} WithoutAbsent(ks: seq<string>, k: string)
    requires k !in ks
    ensures Without(ks, k) == ks
  {
    if ks != [] {
      WithoutAbsent(ks[1..], k);
      assert [ks[0]] + ks[1..] == ks;
    }
  }

  /** clearTimer on a task that has no timer only rewrites the saved list from the Map. */
  lemma ClearAbsentTimer(r: Registry, id: string)
    requires Consistent(r)
    requires id !in r.deadlines && id !in r.tickers && DeadlineKey(id) !in r.storage
    ensures ClearTimer(r, id) == Persist(r)
  {
    WithoutAbsent(r.order, id);
    assert r.storage - {DeadlineKey(id)} == r.storage;
    assert r.deadlines - {id} == r.deadlines;
    assert r.tickers - {id} == r.tickers;
  }

  lemma {:induction false} WithoutTwice(ks: seq<string>, k: string)
    ensures Without(Without(ks, k), k) == Without(ks, k)
  {
    WithoutAbsent(Without(ks, k), k);
  }

  /** setExpiredFlag is idempotent. */
  lemma ExpireTwice(r: Registry, id: string)
    ensures SetExpiredFlag(SetExpiredFlag(r, id), id) == SetExpiredFlag(r, id)
  {
    var once := SetExpiredFlag(r, id);
    var twice := SetExpiredFlag(once, id);
    ExpiredShape(r, id, once);
    ExpiredShape(once, id, twice);
    WithoutTwice(r.order, id);
    ExpireTwiceStorage(r.storage, r.order, id);
    assert r.deadlines - {id} - {id} == r.deadlines - {id};
    assert r.tickers - {id} - {id} == r.tickers - {id};
  }

  /** The registry setExpiredFlag leaves, field by field. */
  lemma ExpiredShape(r: Registry, id: string, e: Registry)
    requires e == SetExpiredFlag(r, id)
    ensures e.storage == (r.storage - {DeadlineKey(id)})[ActiveListKey := KeyList.Encode(Without(r.order, id))][ExpiredKey(id) := "true"]
    ensures e.order == Without(r.order, id) && e.deadlines == r.deadlines - {id} && e.tickers == r.tickers - {id}
    ensures e.sweeping == r.sweeping
  {
  }

  /** The storage half of ExpireTwice: the same deletes and writes a second time change nothing. */
  lemma ExpireTwiceStorage(s: map<string, string>, order: seq<string>, id: string)
    ensures var list := KeyList.Encode(Without(order, id));
      var once := (s - {DeadlineKey(id)})[ActiveListKey := list][ExpiredKey(id) := "true"];
      (once - {DeadlineKey(id)})[ActiveListKey := list][ExpiredKey(id) := "true"] == once
  {
    KeysDiffer(id);
  }

  // ---------------------------------------------------------------------
  // The ticker.

  lemma PadTwoDigits(n: nat)
    requires n < 100
    ensures |Pad2(n)| == 2 && AllDigits(Pad2(n)) && DigitsValue(Pad2(n), 10) == n
  {
    DecimalValue(n);
    if n < 10 {
      assert Pad2(n)[..1] == "0";
    } else {
      assert NatToString(n / 10) == [DigitChar(n / 10)];
    }
  }

  lemma CountdownFields(t: nat)
    ensures var h, m, s := t / 3600000, t % 3600000 / 60000, t % 60000 / 1000;
      m < 60 && s < 60
      && h * 3600000 + m * 60000 + s * 1000 <= t < h * 3600000 + m * 60000 + s * 1000 + 1000
  {
    var h, rh := t / 3600000, t % 3600000;
    var m, rm := rh / 60000, rh % 60000;
    assert t == h * 3600000 + rh;
    assert rh == m * 60000 + rm;
    MinuteRemainder(t, h * 60 + m, rm);
  }

  /** The remainder of a whole number of minutes plus `r` milliseconds. */
  lemma MinuteRemainder(t: nat, q: nat, r: nat)
    requires r < 60000 && t == q * 60000 + r
    ensures t % 60000 == r
  {
  }

  /**
   * The countdown text is the time left truncated to whole seconds: its
   * minute and second fields are two digits below 60, and the three fields
   * read back as numbers that rebuild the time left to within a second.
   */
  lemma CountdownReadsBack(t: nat)
    ensures var h, m, s := t / 3600000, t % 3600000 / 60000, t % 60000 / 1000;
      Countdown(t) == Pad2(h) + ":" + Pad2(m) + ":" + Pad2(s)
      && m < 60 && s < 60 && |Pad2(m)| == 2 && |Pad2(s)| == 2
      && ParseInt(Pad2(h), 10) == Some(h)
      && ParseInt(Pad2(m), 10) == Some(m)
      && ParseInt(Pad2(s), 10) == Some(s)
      && h * 3600000 + m * 60000 + s * 1000 <= t < h * 3600000 + m * 60000 + s * 1000 + 1000
  {
    var h, m, s := t / 3600000, t % 3600000 / 60000, t % 60000 / 1000;
    CountdownFields(t);
    PadTwoDigits(m);
    PadTwoDigits(s);
    DigitsParse(Pad2(m), 10);
    DigitsParse(Pad2(s), 10);
    DecimalValue(h);
    if h < 10 {
      PadTwoDigits(h);
    }
    DigitsParse(Pad2(h), 10);
  }

  /** A ticker whose deadline has passed stops, expires the task, and the task then reads as expired. */
  lemma TickAfterDeadline(r: Registry, id: string, now: int, later: int, shown: bool)
    requires id in r.tickers && r.tickers[id] <= now
    ensures var (r', outcome) := Tick(r, id, now);
      outcome == Lapsed && Settled(r', id) && id !in r'.tickers && id !in r'.deadlines
      && CheckTimer(r', id, later, shown) == (r', Expired)
  {
    KeysDiffer(id);
  }

  /** Before the deadline a tick only shows the countdown. */
  lemma TickBeforeDeadline(r: Registry, id: string, now: int)
    requires id in r.tickers && r.tickers[id] > now
    ensures Tick(r, id, now) == (r, Showing(Countdown(r.tickers[id] - now), UrgencyOf(id, r.tickers[id] - now)))
  {
  }

  // ---------------------------------------------------------------------
  // Start-up reconciliation.

  /** A corrupt saved list is deleted and nothing else is loaded. */
  lemma CorruptListDropped(r: Registry, now: int)
    requires ActiveListKey in r.storage && r.storage[ActiveListKey] != ""
    requires KeyList.Decode(r.storage[ActiveListKey]) == None
    ensures Init(r, now) == r.(storage := r.storage - {ActiveListKey}, sweeping := true)
  {
  }

  /** Reconciliation only adds deadlines that are still ahead; other Map entries keep their values. */
  lemma {:induction false} ReconcileLoadsOnlyLater(r: Registry, ids: seq<string>, now: int)
    ensures var r' := Reconcile(r, ids, now);
      forall k :: k in r'.deadlines ==>
        (k in r.deadlines && r'.deadlines[k] == r.deadlines[k]) || Later(r'.deadlines[k], now)
    decreases |ids|
  {
    if ids != [] {
      ReconcileLoadsOnlyLater(ReconcileOne(r, ids[0], now), ids[1..], now);
    }
  }

  /** On page load every deadline the Map receives is still ahead. */
  lemma InitLoadsOnlyLater(storage: map<string, string>, now: int)
    ensures var r' := Init(PageLoad(storage), now);
      r'.sweeping && forall k :: k in r'.deadlines ==> Later(r'.deadlines[k], now)
  {
    var r := PageLoad(storage);
    if ActiveListKey in storage && storage[ActiveListKey] != "" {
      match KeyList.Decode(storage[ActiveListKey]) {
        case None =>
        case Some(ids) => ReconcileLoadsOnlyLater(r, ids, now);
      }
    }
  }

  lemma {:induction false} ReconcileKeepsSettled(r: Registry, ids: seq<string>, now: int, id: string)
    requires Settled(r, id)
    requires forall b :: b in ids ==> ExpiredKey(b) != DeadlineKey(id) && DeadlineKey(b) != ExpiredKey(id)
    ensures Settled(Reconcile(r, ids, now), id)
    decreases |ids|
  {
    if ids != [] {
      KeysDiffer(ids[0]);
      ReconcileKeepsSettled(ReconcileOne(r, ids[0], now), ids[1..], now, id);
    }
  }

  lemma {:induction false} ReconcileSettles(r: Registry, ids: seq<string>, now: int, id: string)
    requires id in ids && KeysApart(ids)
    requires DeadlineKey(id) in r.storage && r.storage[DeadlineKey(id)] != ""
    requires !Later(ReadDeadline(r.storage[DeadlineKey(id)]), now)
    ensures Settled(Reconcile(r, ids, now), id)
    decreases |ids|
  {
    var b := ids[0];
    var r1 := ReconcileOne(r, b, now);
    KeysDiffer(b);
    KeysDiffer(id);
    if b == id {
      assert Settled(r1, id);
      ReconcileKeepsSettled(r1, ids[1..], now, id);
    } else {
      OtherDeadlineKept(r, b, id, now);
      var rest := ids[1..];
      assert forall a :: a in rest ==> a in ids;
      assert KeysApart(rest);
      ReconcileSettles(r1, rest, now, id);
    }
  }

  /** Reconciling another task leaves this task's stored deadline as it was. */
  lemma OtherDeadlineKept(r: Registry, b: string, id: string, now: int)
    requires b != id && ExpiredKey(b) != DeadlineKey(id) && DeadlineKey(id) in r.storage
    ensures var r1 := ReconcileOne(r, b, now);
      DeadlineKey(id) in r1.storage && r1.storage[DeadlineKey(id)] == r.storage[DeadlineKey(id)]
  {
    KeysDiffer(b);
    DeadlineKeyInjective(b, id);
  }

  /**
   * On start-up a listed task whose stored deadline is not ahead (or is not
   * a number) gets the expired marker and loses its stored deadline.
   */
  lemma InitExpiresPassed(r: Registry, now: int, ids: seq<string>, id: string)
    requires ActiveListKey in r.storage && r.storage[ActiveListKey] != ""
    requires KeyList.Decode(r.storage[ActiveListKey]) == Some(ids)
    requires id in ids && KeysApart(ids)
    requires DeadlineKey(id) in r.storage && r.storage[DeadlineKey(id)] != ""
    requires !Later(ReadDeadline(r.storage[DeadlineKey(id)]), now)
    ensures Settled(Init(r, now), id)
  {
    ReconcileSettles(r, ids, now, id);
  }

  /** A saved list naming one task whose stored deadline reads as `d`: start-up loads or expires just that task. */
  lemma InitSingle(storage: map<string, string>, id: string, d: Deadline, now: int)
    requires ActiveListKey in storage && KeyList.Decode(storage[ActiveListKey]) == Some([id])
    requires DeadlineKey(id) in storage && storage[DeadlineKey(id)] != ""
    requires ReadDeadline(storage[DeadlineKey(id)]) == d
    ensures var r' := Init(PageLoad(storage), now);
      if Later(d, now) then r'.storage == storage && r'.deadlines == map[id := d]
      else r'.storage == storage[ExpiredKey(id) := "true"] - {DeadlineKey(id)} && r'.deadlines == map[]
  {
    var r := PageLoad(storage);
    assert KeyList.Decode("") == None;
    assert Init(r, now) == Reconcile(r, [id], now).(sweeping := true);
    assert Reconcile(r, [id], now) == Reconcile(ReconcileOne(r, id, now), [], now);
  }

  /** A timer whose deadline had passed when it was set is still expired on the next page. */
  lemma ReloadAfterPastDeadline(saved: map<string, string>, id: string, waitUntil: int, now: int, reloadAt: int, shown: bool)
    requires id != "" && waitUntil != 0 && waitUntil <= now
    ensures var before := SetTimer(PageLoad(saved), id, waitUntil, now, shown).0;
      HasExpiredMarker(Init(PageLoad(before.storage), reloadAt), id)
  {
    var before := SetTimer(PageLoad(saved), id, waitUntil, now, shown).0;
    KeysDiffer(id);
    KeyList.DecodeEncode([]);
    assert before.order == [];
    assert before.storage[ActiveListKey] == KeyList.Encode([]);
    assert HasExpiredMarker(before, id);
    var r := PageLoad(before.storage);
    assert Init(r, reloadAt) == Reconcile(r, [], reloadAt).(sweeping := true);
  }

  /** What a future deadline set on a fresh page leaves in localStorage. */
  lemma FutureDeadlineStored(saved: map<string, string>, id: string, waitUntil: int, now: int, shown: bool)
    requires id != "" && waitUntil != 0 && waitUntil > now
    requires !HasExpiredMarker(PageLoad(saved), id)
    ensures var s := SetTimer(PageLoad(saved), id, waitUntil, now, shown).0.storage;
      ActiveListKey in s && KeyList.Decode(s[ActiveListKey]) == Some([id])
      && DeadlineKey(id) in s && s[DeadlineKey(id)] != ""
      && ReadDeadline(s[DeadlineKey(id)]) == At(waitUntil)
      && !(ExpiredKey(id) in s && s[ExpiredKey(id)] == "true")
  {
    var r := PageLoad(saved);
    var before := SetTimer(r, id, waitUntil, now, shown).0;
    KeysDiffer(id);
    var c := ClearTimer(r, id);
    assert c.order == [] && c.storage == (saved - {DeadlineKey(id)})[ActiveListKey := KeyList.Encode([])];
    assert before.order == [id];
    assert before.storage == c.storage[DeadlineKey(id) := IntToString(waitUntil)][ActiveListKey := KeyList.Encode([id])];
    FutureDeadlineRecorded(r, id, waitUntil, now, shown);
  }

  /** What the next page finds for a timer set with a future deadline. */
  lemma ReloadAfterFutureDeadline(saved: map<string, string>, id: string, waitUntil: int, now: int, reloadAt: int, shown: bool)
    requires id != "" && waitUntil != 0 && waitUntil > now
    requires !HasExpiredMarker(PageLoad(saved), id)
    ensures var before := SetTimer(PageLoad(saved), id, waitUntil, now, shown).0;
      var after := Init(PageLoad(before.storage), reloadAt);
      if waitUntil > reloadAt then !HasExpiredMarker(after, id) && id in after.deadlines && after.deadlines[id] == At(waitUntil)
      else HasExpiredMarker(after, id)
  {
    var s := SetTimer(PageLoad(saved), id, waitUntil, now, shown).0.storage;
    FutureDeadlineStored(saved, id, waitUntil, now, shown);
    InitSingle(s, id, At(waitUntil), reloadAt);
  }

  /** checkTimer on a task with no marker and a deadline in the Map. */
  lemma CheckLoaded(r: Registry, id: string, waitUntil: int, now: int, shown: bool)
    requires !HasExpiredMarker(r, id) && id in r.deadlines && r.deadlines[id] == At(waitUntil) && waitUntil != 0
    ensures CheckTimer(r, id, now, shown).1 == if waitUntil <= now then Expired else Running(waitUntil - now, waitUntil)
  {
  }

  /**
   * Deadlines survive a page reload: a timer set on one page, read on the
   * next page after initTimerManager, is running until its deadline and
   * expired from then on.
   */
  lemma ReloadKeepsDeadline(saved: map<string, string>, id: string, waitUntil: int, now: int, reloadAt: int, later: int, shown: bool, shown2: bool)
    requires id != "" && waitUntil != 0
    requires !HasExpiredMarker(PageLoad(saved), id)
    ensures var before := SetTimer(PageLoad(saved), id, waitUntil, now, shown).0;
      var after := Init(PageLoad(before.storage), reloadAt);
      CheckTimer(after, id, later, shown2).1 ==
        if waitUntil <= now || waitUntil <= reloadAt || waitUntil <= later then Expired
        else Running(waitUntil - later, waitUntil)
  {
    var before := SetTimer(PageLoad(saved), id, waitUntil, now, shown).0;
    var after := Init(PageLoad(before.storage), reloadAt);
    if waitUntil <= now {
      ReloadAfterPastDeadline(saved, id, waitUntil, now, reloadAt, shown);
    } else {
      ReloadAfterFutureDeadline(saved, id, waitUntil, now, reloadAt, shown);
      if waitUntil > reloadAt {
        CheckLoaded(after, id, waitUntil, later, shown2);
      }
    }
  }

  // ---------------------------------------------------------------------
  // Sweeps.

  /** DueIds over a suffix of the keys, one key at a time. */
  lemma DueIdsStep(ks: seq<string>, deadlines: map<string, Deadline>, now: int, i: int)
    requires 0 <= i < |ks|
    ensures DueIds(ks[i..], deadlines, now)
      == (if ks[i] in deadlines && Due(deadlines[ks[i]], now) then [ks[i]] else []) + DueIds(ks[i + 1..], deadlines, now)
  {
    assert ks[i..][1..] == ks[i + 1..];
  }

  /** The accumulator of a left-to-right scan for due keys, one key further on. */
  lemma DueIdsAccumulate(acc: seq<string>, ks: seq<string>, deadlines: map<string, Deadline>, now: int, i: int)
    requires 0 <= i < |ks|
    requires acc + DueIds(ks[i..], deadlines, now) == DueIds(ks, deadlines, now)
    ensures var acc' := if ks[i] in deadlines && Due(deadlines[ks[i]], now) then acc + [ks[i]] else acc;
      acc' + DueIds(ks[i + 1..], deadlines, now) == DueIds(ks, deadlines, now)
  {
    DueIdsStep(ks, deadlines, now, i);
    var rest := DueIds(ks[i + 1..], deadlines, now);
    if ks[i] in deadlines && Due(deadlines[ks[i]], now) {
      assert (acc + [ks[i]]) + rest == acc + ([ks[i]] + rest);
    } else {
      assert [] + rest == rest;
    }
  }

  /** Expiring one more key after a list of keys is expiring the longer list. */
  lemma {:induction false} ExpireAllSnoc(r: Registry, ids: seq<string>, k: string)
    ensures ExpireAll(r, ids + [k]) == SetExpiredFlag(ExpireAll(r, ids), k)
    decreases |ids|
  {
    if ids == [] {
      assert ids + [k] == [k] && [k][1..] == [];
    } else {
      assert (ids + [k])[0] == ids[0] && (ids + [k])[1..] == ids[1..] + [k];
      ExpireAllSnoc(SetExpiredFlag(r, ids[0]), ids[1..], k);
    }
  }

  lemma ExpireAllStep(r: Registry, ids: seq<string>, j: int)
    requires 0 <= j < |ids|
    ensures ExpireAll(r, ids[j..]) == ExpireAll(SetExpiredFlag(r, ids[j]), ids[j + 1..])
  {
    assert ids[j..][1..] == ids[j + 1..];
  }

  lemma {:induction false} ExpireAllEntries(r: Registry, ids: seq<string>)
    ensures var r' := ExpireAll(r, ids);
      (forall k :: k in r'.deadlines <==> k in r.deadlines && k !in ids)
      && (forall k :: k in r'.deadlines ==> r'.deadlines[k] == r.deadlines[k])
      && (forall k :: k in r'.tickers <==> k in r.tickers && k !in ids)
    decreases |ids|
  {
    if ids != [] {
      ExpireAllEntries(SetExpiredFlag(r, ids[0]), ids[1..]);
    }
  }

  lemma {:induction false} ExpireAllKeepsSettled(r: Registry, ids: seq<string>, id: string)
    requires Settled(r, id)
    requires forall b :: b in ids ==> ExpiredKey(b) != DeadlineKey(id) && DeadlineKey(b) != ExpiredKey(id)
    ensures Settled(ExpireAll(r, ids), id)
    decreases |ids|
  {
    if ids != [] {
      KeysDiffer(ids[0]);
      KeysDiffer(id);
      ExpireAllKeepsSettled(SetExpiredFlag(r, ids[0]), ids[1..], id);
    }
  }

  lemma {:induction false} ExpireAllSettles(r: Registry, ids: seq<string>, all: seq<string>)
    requires KeysApart(all) && forall k :: k in ids ==> k in all
    ensures forall k :: k in ids ==> Settled(ExpireAll(r, ids), k)
    decreases |ids|
  {
    if ids != [] {
      var r1 := SetExpiredFlag(r, ids[0]);
      KeysDiffer(ids[0]);
      ExpireAllSettles(r1, ids[1..], all);
      ExpireAllKeepsSettled(r1, ids[1..], ids[0]);
    }
  }

  /**
   * The minute sweep expires exactly the Map entries whose deadline has
   * passed: they leave the Map and their tickers stop, they read as expired
   * and lose their stored deadline, and every other entry is kept as it was.
   */
  lemma SweepExpiresExactlyDue(r: Registry, now: int)
    requires Consistent(r) && KeysApart(r.order)
    ensures var r' := CleanupExpiredTimers(r, now);
      Consistent(r')
      && (forall k :: k in r'.deadlines <==> k in r.deadlines && !Due(r.deadlines[k], now))
      && (forall k :: k in r'.deadlines ==> r'.deadlines[k] == r.deadlines[k])
      && (forall k :: k in r.deadlines && Due(r.deadlines[k], now) ==>
            Settled(r', k) && k !in r'.tickers)
  {
    var due := DueIds(r.order, r.deadlines, now);
    ExpireAllEntries(r, due);
    ExpireAllSettles(r, due, r.order);
  }

  lemma {:induction false} ExpireAllSavesList(r: Registry, ids: seq<string>)
    requires ids != []
    ensures var r' := ExpireAll(r, ids);
      ActiveListKey in r'.storage && r'.storage[ActiveListKey] == KeyList.Encode(r'.order)
    decreases |ids|
  {
    KeysDiffer(ids[0]);
    if |ids| > 1 {
      ExpireAllSavesList(SetExpiredFlag(r, ids[0]), ids[1..]);
    }
  }

  /** checkAllTimers and cleanupExpiredTimers leave the same state: the extra save rewrites the list already saved. */
  lemma SweepsAgree(r: Registry, now: int)
    ensures CheckAllTimers(r, now) == CleanupExpiredTimers(r, now)
  {
    var due := DueIds(r.order, r.deadlines, now);
    if due != [] {
      var swept := ExpireAll(r, due);
      ExpireAllSavesList(r, due);
      assert Persist(swept).storage == swept.storage;
    }
  }

  /** destroyTimerManager empties the Map and stops tickers and sweep, leaving localStorage as it was. */
  lemma DestroyKeepsStorage(r: Registry)
    ensures var r' := Destroy(r);
      r'.storage == r.storage && r'.deadlines == map[] && r'.tickers == map[] && !r'.sweeping
  {
  }
}

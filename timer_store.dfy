// The timer registry as the page holds it: localStorage, the activeTimers
// Map (its key order and values), the activeIntervals Map and the cleanup
// interval are fields updated in place. Each method carries out the step
// of TimerManager.js it is named after and is proved to leave exactly the
// state the corresponding function of module TimerManager describes.
module TimerStore {
  import opened Js
  import KeyList
  import TM = TimerManager

  class TimerRegistry {
    var storage: map<string, string>
    var order: seq<string>
    var deadlines: map<string, TM.Deadline>
    var tickers: map<string, int>
    var sweeping: bool

    function Model(): TM.Registry
      reads this
    {
      TM.Registry(storage, order, deadlines, tickers, sweeping)
    }

    /** activeTimers lists every key once, in insertion order. */
    ghost predicate Valid()
      reads this
    {
      TM.Consistent(Model())
    }

    /** A page loaded over an existing localStorage: empty Maps, no sweep. */
    constructor (saved: map<string, string>)
      ensures Model() == TM.PageLoad(saved) && Valid()
    {
      storage := saved;
      order := [];
      deadlines := map[];
      tickers := map[];
      sweeping := false;
    }

    /** saveActiveTimers. */
    method SaveActiveTimers()
      modifies this
      ensures Model() == TM.Persist(old(Model()))
    {
      storage := storage[TM.ActiveListKey := KeyList.Encode(order)];
    }

    /** clearTimer. */
    method ClearTimer(id: string)
      requires Valid()
      modifies this
      ensures Valid() && Model() == TM.ClearTimer(old(Model()), id)
    {
      var live := tickers;
      if id in tickers {
        live := tickers - {id};
      } else {
        assert live == tickers - {id};
      }
      storage, order, deadlines, tickers := storage - {TM.DeadlineKey(id)}, TM.Without(order, id), deadlines - {id}, live;
      TM.ClearedRegistry(old(Model()), id, Model());
      SaveActiveTimers();
    }

    /** setExpiredFlag. */
    method SetExpiredFlag(id: string)
      requires Valid()
      modifies this
      ensures Valid() && Model() == TM.SetExpiredFlag(old(Model()), id)
    {
      ClearTimer(id);
      storage := storage[TM.ExpiredKey(id) := "true"];
    }

    /** renderTimer: the new ticker replaces any earlier one for the task. */
    method RenderTimer(id: string, waitUntil: int)
      modifies this
      ensures Model() == TM.StartTicker(old(Model()), id, waitUntil)
    {
      tickers := tickers[id := waitUntil];
    }

    /** activeTimers.set. */
    method MapSet(id: string, d: TM.Deadline)
      requires Valid()
      modifies this
      ensures Valid() && Model() == TM.MapSet(old(Model()), id, d)
    {
      if id !in deadlines {
        order := order + [id];
      }
      deadlines := deadlines[id := d];
    }

    /** setTimer(id, waitUntil) at time `now`; `shown` says whether a task element was given. */
    method SetTimer(id: string, waitUntil: int, now: int, shown: bool) returns (ok: bool)
      requires Valid()
      modifies this
      ensures Valid() && (Model(), ok) == TM.SetTimer(old(Model()), id, waitUntil, now, shown)
    {
      if id == "" || waitUntil == 0 {
        return false;
      }
      ClearTimer(id);
      if waitUntil <= now {
        SetExpiredFlag(id);
        return true;
      }
      storage := storage[TM.DeadlineKey(id) := IntToString(waitUntil)];
      MapSet(id, TM.At(waitUntil));
      SaveActiveTimers();
      if shown {
        RenderTimer(id, waitUntil);
      }
      return true;
    }

    /** checkTimer(id) at time `now`. */
    method CheckTimer(id: string, now: int, shown: bool) returns (status: TM.TimerStatus)
      requires Valid()
      modifies this
      ensures Valid() && (Model(), status) == TM.CheckTimer(old(Model()), id, now, shown)
    {
      if TM.ExpiredKey(id) in storage && storage[TM.ExpiredKey(id)] == "true" {
        return TM.Expired;
      }
      var d := HydrateDeadline(id);
      TM.CheckTimerAfterHydrate(old(Model()), id, now, shown, Model(), d);
      if !TM.IsSet(d) {
        return TM.NoTimer;
      }
      if d.ms - now <= 0 {
        SetExpiredFlag(id);
        return TM.Expired;
      }
      if shown {
        RenderTimer(id, d.ms);
      }
      return TM.Running(d.ms - now, d.ms);
    }

    /**
     * The deadline checkTimer works with: the Map's value when it is set,
     * otherwise the stored one, which is then put back into the Map and the
     * list saved.
     */
    method HydrateDeadline(id: string) returns (d: TM.Deadline)
      requires Valid()
      modifies this
      ensures Valid() && (Model(), d) == TM.Hydrate(old(Model()), id)
    {
      d := if id in deadlines then deadlines[id] else TM.NaN;
      if !TM.IsSet(d) {
        var key := TM.DeadlineKey(id);
        if key in storage && storage[key] != "" {
          d := TM.ReadDeadline(storage[key]);
          MapSet(id, d);
          SaveActiveTimers();
        } else {
          d := TM.NaN;
        }
      }
    }

    /** One firing of the one-second ticker of `id` at time `now` (updateTimer). */
    method FireTicker(id: string, now: int) returns (outcome: TM.TickOutcome)
      requires Valid()
      modifies this
      ensures Valid() && (Model(), outcome) == TM.Tick(old(Model()), id, now)
    {
      if id !in tickers {
        return TM.Idle;
      }
      var timeLeft := tickers[id] - now;
      if timeLeft <= 0 {
        tickers := tickers - {id};
        SetExpiredFlag(id);
        return TM.Lapsed;
      }
      return TM.Showing(TM.Countdown(timeLeft), TM.UrgencyOf(id, timeLeft));
    }

    /** initTimerManager at time `now`. */
    method InitTimerManager(now: int)
      requires Valid()
      modifies this
      ensures Valid() && Model() == TM.Init(old(Model()), now)
    {
      LoadSavedTimers(now);
      sweeping := true;
    }

    /** The saved list, read back at start-up. */
    method LoadSavedTimers(now: int)
      requires Valid()
      modifies this
      ensures Valid() && Model() == TM.LoadSaved(old(Model()), now)
    {
      if TM.ActiveListKey in storage && storage[TM.ActiveListKey] != "" {
        match KeyList.Decode(storage[TM.ActiveListKey]) {
          case None =>
            storage := storage - {TM.ActiveListKey};
          case Some(ids) =>
            var i := 0;
            while i < |ids|
              invariant 0 <= i <= |ids|
              invariant Valid()
              invariant TM.Reconcile(Model(), ids[i..], now) == TM.Reconcile(old(Model()), ids, now)
            {
              assert ids[i..] == [ids[i]] + ids[i + 1..];
              ReconcileEntry(ids[i], now);
              i := i + 1;
            }
        }
      }
    }

    /**
     * One key of the saved list in initTimerManager: a stored deadline still
     * ahead goes back into the Map; one that has passed (or is NaN) is
     * replaced by the expired marker.
     */
    method ReconcileEntry(id: string, now: int)
      requires Valid()
      modifies this
      ensures Valid() && Model() == TM.ReconcileOne(old(Model()), id, now)
    {
      var key := TM.DeadlineKey(id);
      if key in storage && storage[key] != "" {
        var d := TM.ReadDeadline(storage[key]);
        if TM.Later(d, now) {
          MapSet(id, d);
        } else {
          storage := storage[TM.ExpiredKey(id) := "true"] - {key};
        }
      }
    }

    /** checkAllTimers at time `now`. */
    method CheckAllTimers(now: int)
      requires Valid()
      modifies this
      ensures Valid() && Model() == TM.CheckAllTimers(old(Model()), now)
    {
      var removed := ExpireDue(order, deadlines, now);
      TM.ExpireAllEntries(old(Model()), removed);
      DeleteAll(removed);
      if |removed| > 0 {
        SaveActiveTimers();
      }
    }

    /**
     * The first forEach of checkAllTimers over the Map's keys and values as
     * they were when it started (it only ever deletes the entry it is
     * visiting): expire each due entry and remember its key.
     */
    method ExpireDue(keys: seq<string>, values: map<string, TM.Deadline>, now: int) returns (removed: seq<string>)
      requires Valid()
      modifies this
      ensures Valid() && removed == TM.DueIds(keys, values, now)
      ensures Model() == TM.ExpireAll(old(Model()), removed)
    {
      removed := [];
      ghost var start := Model();
      var i := 0;
      assert keys[i..] == keys;
      while i < |keys|
        invariant 0 <= i <= |keys|
        invariant Valid()
        invariant removed + TM.DueIds(keys[i..], values, now) == TM.DueIds(keys, values, now)
        invariant Model() == TM.ExpireAll(start, removed)
      {
        removed := ExpireEntry(start, removed, keys, values, now, i);
        i := i + 1;
      }
      assert removed + [] == removed;
    }

    /** One visit of that forEach: expire the entry at keys[i] when it is due. */
    method ExpireEntry(ghost start: TM.Registry, removed: seq<string>, keys: seq<string>, values: map<string, TM.Deadline>, now: int, i: nat)
      returns (removed': seq<string>)
      requires Valid() && i < |keys|
      requires removed + TM.DueIds(keys[i..], values, now) == TM.DueIds(keys, values, now)
      requires Model() == TM.ExpireAll(start, removed)
      modifies this
      ensures Valid()
      ensures removed' + TM.DueIds(keys[i + 1..], values, now) == TM.DueIds(keys, values, now)
      ensures Model() == TM.ExpireAll(start, removed')
    {
      TM.DueIdsAccumulate(removed, keys, values, now, i);
      removed' := removed;
      if keys[i] in values && TM.Due(values[keys[i]], now) {
        TM.ExpireAllSnoc(start, removed, keys[i]);
        SetExpiredFlag(keys[i]);
        removed' := removed + [keys[i]];
      }
    }

    /** The second forEach of checkAllTimers: activeTimers.delete of keys already gone. */
    method DeleteAll(ids: seq<string>)
      requires Valid() && forall k :: k in ids ==> k !in deadlines
      modifies this
      ensures Valid() && Model() == old(Model())
    {
      var j := 0;
      while j < |ids|
        invariant 0 <= j <= |ids|
        invariant Valid() && Model() == old(Model())
      {
        TM.WithoutAbsent(order, ids[j]);
        order := TM.Without(order, ids[j]);
        deadlines := deadlines - {ids[j]};
        j := j + 1;
      }
    }

    /** cleanupExpiredTimers at time `now`: collect the due keys, then expire each. */
    method CleanupExpiredTimers(now: int)
      requires Valid()
      modifies this
      ensures Valid() && Model() == TM.CleanupExpiredTimers(old(Model()), now)
    {
      var expired := CollectDue(order, deadlines, now);
      var j := 0;
      while j < |expired|
        invariant 0 <= j <= |expired|
        invariant Valid()
        invariant TM.ExpireAll(Model(), expired[j..]) == TM.ExpireAll(old(Model()), expired)
      {
        TM.ExpireAllStep(Model(), expired, j);
        SetExpiredFlag(expired[j]);
        j := j + 1;
      }
    }

    /** destroyTimerManager. */
    method DestroyTimerManager()
      modifies this
      ensures Valid() && Model() == TM.Destroy(old(Model()))
    {
      tickers := map[];
      sweeping := false;
      order := [];
      deadlines := map[];
    }
  }

  /** The first forEach of cleanupExpiredTimers: the Map keys, in order, whose deadline has passed. */
  method CollectDue(keys: seq<string>, values: map<string, TM.Deadline>, now: int) returns (due: seq<string>)
    ensures due == TM.DueIds(keys, values, now)
  {
    due := [];
    var i := 0;
    while i < |keys|
      invariant 0 <= i <= |keys|
      invariant due + TM.DueIds(keys[i..], values, now) == TM.DueIds(keys, values, now)
    {
      TM.DueIdsAccumulate(due, keys, values, now, i);
      if keys[i] in values && TM.Due(values[keys[i]], now) {
        due := due + [keys[i]];
      }
      i := i + 1;
    }
  }
}

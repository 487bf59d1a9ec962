/**
 * The Tk edition's `WranglerMasterApp` as far as it is not presentation: the
 * instance list, the default work-order path, the timer table and the
 * schedule table, with the operations that change them. Every background
 * thread the application would start is returned as a `Dispatch` instead;
 * the clock and every network reply are parameters.
 */
module Supervisor {
  import opened Wrappers
  import opened RunConfig
  import opened Client
  import opened Dialogs
  import opened Automation
  import opened Tallies

  /** The keys of the instances in the list. */
  function Registered(s: seq<WranglerInstance>): set<string> {
    set i | 0 <= i < |s| :: KeyOf(s[i])
  }

  /** `list.remove`: drop the first element equal to `x`; nothing when there is none. */
  function RemoveFirst(s: seq<WranglerInstance>, x: WranglerInstance): (r: seq<WranglerInstance>)
    ensures x !in s ==> r == s
  {
    if s == [] then []
    else if s[0] == x then s[1..]
    else [s[0]] + RemoveFirst(s[1..], x)
  }

  /** Removing the first match at `i` is cutting `s[i]` out. */
  lemma {:induction false} RemoveFirstAt(s: seq<WranglerInstance>, x: WranglerInstance, i: nat)
    requires i < |s| && s[i] == x && x !in s[..i]
    ensures RemoveFirst(s, x) == s[..i] + s[i + 1..]
  {
    if i > 0 {
      assert s[1..][..i - 1] == s[1..i];
      RemoveFirstAt(s[1..], x, i - 1);
      assert s[1..][i..] == s[i + 1..];
    }
  }

  /** `list.remove` takes out one copy of `x` when there is one and keeps every other element. */
  lemma {:induction false} RemoveFirstMultiset(s: seq<WranglerInstance>, x: WranglerInstance)
    ensures x in s ==> multiset(RemoveFirst(s, x)) == multiset(s) - multiset{x}
    ensures x in s ==> |RemoveFirst(s, x)| == |s| - 1
  {
    if s != [] && s[0] != x {
      RemoveFirstMultiset(s[1..], x);
      assert s == [s[0]] + s[1..];
    } else if s != [] {
      assert s == [s[0]] + s[1..];
    }
  }

  /** Removing one instance keeps every other instance's key registered. */
  lemma RegisteredAfterCut(s: seq<WranglerInstance>, i: nat)
    requires i < |s|
    ensures Registered(s) - {KeyOf(s[i])} <= Registered(s[..i] + s[i + 1..])
  {
    var r := s[..i] + s[i + 1..];
    forall k | k in Registered(s) - {KeyOf(s[i])} ensures k in Registered(r) {
      var j :| 0 <= j < |s| && KeyOf(s[j]) == k;
      if j < i {
        assert r[j] == s[j];
      } else {
        assert j > i && r[j - 1] == s[j];
      }
    }
  }

  /** An instance in the list has its key registered. */
  lemma KeyRegistered(s: seq<WranglerInstance>, x: WranglerInstance)
    requires x in s
    ensures KeyOf(x) in Registered(s)
  {
    var i :| 0 <= i < |s| && s[i] == x;
  }

  /** Replacing an instance by one with the same key leaves the registered keys as they were. */
  lemma RegisteredAfterUpdate(s: seq<WranglerInstance>, i: nat, x: WranglerInstance)
    requires i < |s| && KeyOf(x) == KeyOf(s[i])
    ensures Registered(s[i := x]) == Registered(s)
  {
    var r := s[i := x];
    assert forall j :: 0 <= j < |s| ==> KeyOf(r[j]) == KeyOf(s[j]);
  }

  /** A second write under the same key replaces the first. */
  lemma OverwriteTwice(m: map<string, ScheduleEntry>, k: string, a: ScheduleEntry, b: ScheduleEntry)
    ensures m[k := a][k := b] == m[k := b]
  {
  }

  /** What the advanced-run dialog returns when not cancelled. */
  datatype DialogResult = DialogResult(config: AdvancedRunConfig, saveOnly: bool)

  /** The keys of a list of dispatches. */
  function DispatchedKeys(d: seq<Dispatch>): set<string> {
    set i | 0 <= i < |d| :: d[i].key
  }

  lemma DispatchedKeysConcat(a: seq<Dispatch>, b: seq<Dispatch>)
    ensures DispatchedKeys(a + b) == DispatchedKeys(a) + DispatchedKeys(b)
  {
    var c := a + b;
    forall k | k in DispatchedKeys(c) ensures k in DispatchedKeys(a) + DispatchedKeys(b) {
      var i :| 0 <= i < |c| && c[i].key == k;
      if i >= |a| {
        assert b[i - |a|] == c[i];
      }
    }
    forall k | k in DispatchedKeys(b) ensures k in DispatchedKeys(c) {
      var i :| 0 <= i < |b| && b[i].key == k;
      assert c[|a| + i] == b[i];
    }
    forall k | k in DispatchedKeys(a) ensures k in DispatchedKeys(c) {
      var i :| 0 <= i < |a| && a[i].key == k;
      assert c[i] == a[i];
    }
  }

  lemma DispatchedKeysSingle(x: Dispatch)
    ensures DispatchedKeys([x]) == {x.key}
  {
    assert [x][0] == x;
  }

  predicate DistinctKeys(d: seq<Dispatch>) {
    forall i, j :: 0 <= i < j < |d| ==> d[i].key != d[j].key
  }

  /** The schedule table after one `_check_schedules` pass at minute `cur`. */
  function SchedulesAfter(s: map<string, ScheduleEntry>, cur: int, fetch: string -> FetchOutcome)
    : (r: map<string, ScheduleEntry>)
    ensures r.Keys == s.Keys
  {
    map k | k in s :: Apply(s[k], Decide(s[k], cur, GetStatus(fetch(k)).isExecuting))
  }

  /** The keys of a list, as a set. */
  function KeySet(s: seq<string>): set<string> {
    if s == [] then {} else KeySet(s[..|s| - 1]) + {s[|s| - 1]}
  }

  lemma {:induction false} KeySetMembers(s: seq<string>)
    ensures forall k :: k in KeySet(s) <==> k in s
  {
    if s != [] {
      KeySetMembers(s[..|s| - 1]);
      assert s == s[..|s| - 1] + [s[|s| - 1]];
    }
  }

  /** The state of `_check_timers`' marking loop with the keys of `pending` still to visit. */
  ghost predicate MarkState(t0: map<string, TimerEntry>, now: int, t: map<string, TimerEntry>,
                            pending: set<string>, toRemove: seq<string>, d: seq<Dispatch>)
  {
    && pending <= t0.Keys && t.Keys == t0.Keys
    && (forall k :: k in t0 ==> t[k] == if k !in pending && Fires(t0[k], now) then t0[k].(stopped := true) else t0[k])
    && |d| == |toRemove|
    && (forall i :: 0 <= i < |d| ==>
          d[i].key == toRemove[i] && toRemove[i] in t0 && toRemove[i] !in pending
          && d[i].actions == StopActions(t0[toRemove[i]].instance))
    && DistinctKeys(d)
    && DispatchedKeys(d) == set k | k in t0 && k !in pending && Fires(t0[k], now)
  }

  lemma MarkFire(t0: map<string, TimerEntry>, now: int, t: map<string, TimerEntry>,
                 pending: set<string>, toRemove: seq<string>, d: seq<Dispatch>, k: string)
    requires MarkState(t0, now, t, pending, toRemove, d) && k in pending
    requires Fires(t[k], now)
    ensures MarkState(t0, now, t[k := t[k].(stopped := true)], pending - {k}, toRemove + [k],
                      d + [Dispatch(k, StopActions(t[k].instance))])
  {
    var x := Dispatch(k, StopActions(t[k].instance));
    DispatchedKeysConcat(d, [x]);
    DispatchedKeysSingle(x);
    var d' := d + [x];
    assert forall i :: 0 <= i < |d| ==> d'[i] == d[i];
    assert k !in DispatchedKeys(d);
  }

  lemma MarkSkip(t0: map<string, TimerEntry>, now: int, t: map<string, TimerEntry>,
                 pending: set<string>, toRemove: seq<string>, d: seq<Dispatch>, k: string)
    requires MarkState(t0, now, t, pending, toRemove, d) && k in pending
    requires !Fires(t[k], now)
    ensures MarkState(t0, now, t, pending - {k}, toRemove, d)
  {
  }

  lemma MarkDone(t0: map<string, TimerEntry>, now: int, t: map<string, TimerEntry>,
                 toRemove: seq<string>, d: seq<Dispatch>)
    requires MarkState(t0, now, t, {}, toRemove, d)
    ensures t - KeySet(toRemove) == TimersAfter(t0, now)
    ensures DispatchedKeys(d) == FiredKeys(t0, now)
    ensures DistinctKeys(d)
    ensures forall i :: 0 <= i < |d| ==> d[i].key in t0 && d[i].actions == StopActions(t0[d[i].key].instance)
  {
    KeySetMembers(toRemove);
    assert KeySet(toRemove) == DispatchedKeys(d);
  }

  /** The decision of `_check_schedules` for key `k` at minute `cur`. */
  function PassDecision(s: map<string, ScheduleEntry>, k: string, cur: int, fetch: string -> FetchOutcome): Decision
    requires k in s
  {
    Decide(s[k], cur, GetStatus(fetch(k)).isExecuting)
  }

  /** The state of `_check_schedules`' loop with the keys of `pending` still to visit. */
  ghost predicate PassState(s0: map<string, ScheduleEntry>, cur: int, fetch: string -> FetchOutcome, path: string,
                            s: map<string, ScheduleEntry>, pending: set<string>, d: seq<Dispatch>)
  {
    PassTable(s0, cur, fetch, s, pending) && PassSent(s0, cur, fetch, path, pending, d)
  }

  /** The table part: visited entries have had their decision applied, the others are as they were. */
  ghost predicate PassTable(s0: map<string, ScheduleEntry>, cur: int, fetch: string -> FetchOutcome,
                            s: map<string, ScheduleEntry>, pending: set<string>)
  {
    && pending <= s0.Keys && s.Keys == s0.Keys
    && (forall k :: k in s0 ==> s[k] == if k in pending then s0[k] else Apply(s0[k], PassDecision(s0, k, cur, fetch)))
  }

  /** The dispatch part: one dispatch per visited entry whose decision is not to hold. */
  ghost predicate PassSent(s0: map<string, ScheduleEntry>, cur: int, fetch: string -> FetchOutcome, path: string,
                           pending: set<string>, d: seq<Dispatch>)
  {
    && pending <= s0.Keys
    && (forall i :: 0 <= i < |d| ==>
          d[i].key in s0 && d[i].key !in pending
          && [d[i]] == DecisionDispatch(d[i].key, s0[d[i].key], PassDecision(s0, d[i].key, cur, fetch), path))
    && DistinctKeys(d)
    && (forall k :: k in DispatchedKeys(d) <==> k in s0 && k !in pending && PassDecision(s0, k, cur, fetch) != Hold)
  }

  lemma PassStep(s0: map<string, ScheduleEntry>, cur: int, fetch: string -> FetchOutcome, path: string,
                 s: map<string, ScheduleEntry>, pending: set<string>, d: seq<Dispatch>, k: string)
    requires PassState(s0, cur, fetch, path, s, pending, d) && k in pending
    ensures var dec := Decide(s[k], cur, GetStatus(fetch(k)).isExecuting);
            PassState(s0, cur, fetch, path, s[k := Apply(s[k], dec)], pending - {k},
                      d + DecisionDispatch(k, s[k], dec, path))
  {
    assert s[k] == s0[k];
    PassTableStep(s0, cur, fetch, s, pending, k);
    PassSentStep(s0, cur, fetch, path, pending, d, k);
  }

  lemma PassTableStep(s0: map<string, ScheduleEntry>, cur: int, fetch: string -> FetchOutcome,
                      s: map<string, ScheduleEntry>, pending: set<string>, k: string)
    requires PassTable(s0, cur, fetch, s, pending) && k in pending
    ensures PassTable(s0, cur, fetch, s[k := Apply(s0[k], PassDecision(s0, k, cur, fetch))], pending - {k})
  {
  }

  lemma PassSentStep(s0: map<string, ScheduleEntry>, cur: int, fetch: string -> FetchOutcome, path: string,
                     pending: set<string>, d: seq<Dispatch>, k: string)
    requires PassSent(s0, cur, fetch, path, pending, d) && k in pending
    ensures PassSent(s0, cur, fetch, path, pending - {k},
                     d + DecisionDispatch(k, s0[k], PassDecision(s0, k, cur, fetch), path))
  {
    var more := DecisionDispatch(k, s0[k], PassDecision(s0, k, cur, fetch), path);
    DispatchedKeysConcat(d, more);
    assert k !in DispatchedKeys(d);
    var d' := d + more;
    assert forall i :: 0 <= i < |d| ==> d'[i] == d[i];
    if more != [] {
      DispatchedKeysSingle(more[0]);
      assert more == [more[0]];
      assert d'[|d|] == more[0];
    }
  }

  lemma PassDone(s0: map<string, ScheduleEntry>, cur: int, fetch: string -> FetchOutcome, path: string,
                 s: map<string, ScheduleEntry>, d: seq<Dispatch>)
    requires PassState(s0, cur, fetch, path, s, {}, d)
    ensures s == SchedulesAfter(s0, cur, fetch)
    ensures DistinctKeys(d)
    ensures forall k :: k in DispatchedKeys(d) <==> k in s0 && PassDecision(s0, k, cur, fetch) != Hold
    ensures forall i :: 0 <= i < |d| ==>
              d[i].key in s0 && [d[i]] == DecisionDispatch(d[i].key, s0[d[i].key], PassDecision(s0, d[i].key, cur, fetch), path)
  {
  }

  class Master {
    var instances: seq<WranglerInstance>
    var defaultJsonPath: string
    var timers: map<string, TimerEntry>
    var schedules: map<string, ScheduleEntry>

    /** No timer or schedule without an instance of that key in the list. */
    ghost predicate Valid()
      reads this
    {
      timers.Keys <= Registered(instances) && schedules.Keys <= Registered(instances)
    }

    constructor ()
      ensures Valid()
      ensures instances == [] && defaultJsonPath == [] && timers == map[] && schedules == map[]
    {
      instances := [];
      defaultJsonPath := [];
      timers := map[];
      schedules := map[];
    }

    /**
     * `_add_instance_dialog` with `AddInstanceDialog._on_add`: append the new
     * instance when the dialog accepts it. No check for an existing
     * instance with the same host and port.
     */
    method AddInstance(nameEntry: string, hostEntry: string, port: Option<int>) returns (err: Option<AddError>)
      requires Valid()
      modifies this
      ensures Valid()
      ensures err.None? <==> ValidateNewInstance(nameEntry, hostEntry, port).Ok?
      ensures err.None? ==> instances == old(instances) + [ValidateNewInstance(nameEntry, hostEntry, port).value]
      ensures err.Some? ==> err.value == ValidateNewInstance(nameEntry, hostEntry, port).error
                            && instances == old(instances)
      ensures timers == old(timers) && schedules == old(schedules) && defaultJsonPath == old(defaultJsonPath)
    {
      var r := ValidateNewInstance(nameEntry, hostEntry, port);
      if r.Ok? {
        assert forall j :: 0 <= j < |instances| ==> (instances + [r.value])[j] == instances[j];
        assert Registered(instances) <= Registered(instances + [r.value]);
        instances := instances + [r.value];
        err := None;
      } else {
        err := Some(r.error);
      }
    }

    /**
     * `_on_panel_remove` once the user has confirmed: forget the key's timer
     * and schedule, then remove the first equal instance. Returns false when
     * no instance is equal, where `list.remove` would raise after the two
     * tables were already cleaned.
     */
    method Remove(inst: WranglerInstance) returns (removed: bool)
      requires Valid()
      modifies this
      ensures Valid()
      ensures timers == old(timers) - {KeyOf(inst)}
      ensures schedules == old(schedules) - {KeyOf(inst)}
      ensures removed <==> inst in old(instances)
      ensures instances == RemoveFirst(old(instances), inst)
      ensures defaultJsonPath == old(defaultJsonPath)
    {
      var key := KeyOf(inst);
      timers := timers - {key};
      schedules := schedules - {key};
      var i := 0;
      while i < |instances| && instances[i] != inst
        invariant 0 <= i <= |instances|
        invariant inst !in instances[..i]
      {
        i := i + 1;
      }
      if i < |instances| {
        RemoveFirstAt(instances, inst, i);
        RegisteredAfterCut(instances, i);
        instances := instances[..i] + instances[i + 1..];
        removed := true;
      } else {
        assert instances[..i] == instances;
        removed := false;
      }
    }

    /** `_start_none_mode`: start or resume right away, with no automation state. */
    method NoneModeDispatch(inst: WranglerInstance, config: AdvancedRunConfig) returns (d: Dispatch)
      ensures d.key == KeyOf(inst)
      ensures d.actions == StartActions(config, defaultJsonPath)
    {
      d := Dispatch(KeyOf(inst), StartActions(config, defaultJsonPath));
    }

    /**
     * `_start_timer_mode`: arm (or re-arm) the key's timer to end after the
     * configured duration, and dispatch the initial start. Re-arming replaces
     * the old entry without any stop. `latest` is the last second the clock
     * type can represent (`datetime.max`): an end time past it makes the
     * addition raise `OverflowError` before anything is armed or started.
     * (A duration too large for `timedelta` itself also ends past `latest`,
     * since `timedelta` spans more than the whole `datetime` range.)
     */
    method StartTimerMode(inst: WranglerInstance, config: AdvancedRunConfig, now: int, latest: int)
      returns (d: seq<Dispatch>)
      requires Valid() && inst in instances
      modifies this
      ensures Valid()
      ensures now + TimerSeconds(config) > latest ==> timers == old(timers) && d == []
      ensures now + TimerSeconds(config) <= latest ==>
                && timers == old(timers)[KeyOf(inst) := TimerEntry(now + TimerSeconds(config), false, inst)]
                && d == [Dispatch(KeyOf(inst), StartActions(config, defaultJsonPath))]
      ensures forall i :: 0 <= i < |d| ==> Stop !in d[i].actions
      ensures instances == old(instances) && schedules == old(schedules)
      ensures defaultJsonPath == old(defaultJsonPath)
    {
      var key := KeyOf(inst);
      var endTime := now + config.timerHours * 3600 + config.timerMinutes * 60;
      if endTime > latest {
        return [];
      }
      KeyRegistered(instances, inst);
      timers := timers[key := TimerEntry(endTime, false, inst)];
      d := [Dispatch(key, StartActions(config, defaultJsonPath))];
    }

    /**
     * `_check_schedule_for_instance`: nothing for an unknown key; otherwise
     * fetch the agent's status and apply the schedule rule at the given time.
     */
    method CheckScheduleForInstance(key: string, hour: int, minute: int, fetched: FetchOutcome)
      returns (d: seq<Dispatch>)
      requires Valid()
      modifies this
      ensures Valid()
      ensures key !in old(schedules) ==> schedules == old(schedules) && d == []
      ensures key in old(schedules) ==>
                var e := old(schedules)[key];
                var dec := Decide(e, MinutesOfDay(hour, minute), GetStatus(fetched).isExecuting);
                && schedules == old(schedules)[key := Apply(e, dec)]
                && d == DecisionDispatch(key, e, dec, defaultJsonPath)
      ensures instances == old(instances) && timers == old(timers)
      ensures defaultJsonPath == old(defaultJsonPath)
    {
      if key !in schedules {
        return [];
      }
      var e := schedules[key];
      var inWindow := WindowOpen(e, hour, minute);
      var status := GetStatus(fetched);
      ghost var dec := Decide(e, MinutesOfDay(hour, minute), status.isExecuting);
      d := [];
      if inWindow {
        if e.lastAction != Started && !status.isExecuting {
          assert dec == StartNow;
          schedules := schedules[key := e.(lastAction := Started)];
          d := [Dispatch(key, StartActions(e.config, defaultJsonPath))];
        } else {
          assert dec == Hold;
        }
      } else {
        if e.lastAction != Stopped && status.isExecuting {
          assert dec == StopNow;
          schedules := schedules[key := e.(lastAction := Stopped)];
          d := [Dispatch(key, StopActions(e.instance))];
        } else {
          assert dec == Hold;
        }
      }
      assert old(schedules)[key := e] == old(schedules);
      assert schedules.Keys == old(schedules).Keys;
    }

    /** The window test of `_check_schedule_for_instance`, on the minute of the day. */
    method WindowOpen(e: ScheduleEntry, hour: int, minute: int) returns (inWindow: bool)
      ensures inWindow == EntryInWindow(e, MinutesOfDay(hour, minute))
    {
      var cur := hour * 60 + minute;
      var start := e.config.scheduleStartHour * 60 + e.config.scheduleStartMinute;
      var end := e.config.scheduleEndHour * 60 + e.config.scheduleEndMinute;
      if start <= end {
        inWindow := start <= cur < end;
      } else {
        inWindow := cur >= start || cur < end;
      }
    }

    /**
     * `_start_schedule_mode`: put a fresh entry (no last action) under the
     * key, replacing any earlier one, and check it at once. The key's timer,
     * if any, is left in place.
     */
    method StartScheduleMode(inst: WranglerInstance, config: AdvancedRunConfig, hour: int, minute: int,
                             fetched: FetchOutcome)
      returns (d: seq<Dispatch>)
      requires Valid() && inst in instances
      modifies this
      ensures Valid()
      ensures var e := ScheduleEntry(config, inst, NoAction);
              var dec := Decide(e, MinutesOfDay(hour, minute), GetStatus(fetched).isExecuting);
              && schedules == old(schedules)[KeyOf(inst) := Apply(e, dec)]
              && d == DecisionDispatch(KeyOf(inst), e, dec, defaultJsonPath)
      ensures instances == old(instances) && timers == old(timers)
      ensures defaultJsonPath == old(defaultJsonPath)
    {
      var key := KeyOf(inst);
      KeyRegistered(instances, inst);
      ghost var s0 := schedules;
      var e := ScheduleEntry(config, inst, NoAction);
      schedules := schedules[key := e];
      d := CheckScheduleForInstance(key, hour, minute, fetched);
      OverwriteTwice(s0, key, e, schedules[key]);
    }

    /**
     * `_check_timers`: mark and collect every entry that fires, dispatch a
     * stop (and go-home) for each, then delete the collected entries. The
     * model visits entries in an arbitrary order; the source's insertion
     * order is not modelled (see README).
     */
    method CheckTimers(now: int) returns (d: seq<Dispatch>)
      requires Valid()
      modifies this
      ensures Valid()
      ensures timers == TimersAfter(old(timers), now)
      ensures DispatchedKeys(d) == FiredKeys(old(timers), now)
      ensures DistinctKeys(d)
      ensures forall i :: 0 <= i < |d| ==>
                d[i].key in old(timers) && d[i].actions == StopActions(old(timers)[d[i].key].instance)
      ensures instances == old(instances) && schedules == old(schedules)
      ensures defaultJsonPath == old(defaultJsonPath)
    {
      ghost var t0 := timers;
      var toRemove;
      toRemove, d := MarkDue(now);
      ghost var marked := timers;
      DeleteTimers(toRemove);
      MarkDone(t0, now, marked, toRemove, d);
    }

    /** The first pass of `_check_timers`: mark every entry that fires as stopped and collect it. */
    method MarkDue(now: int) returns (toRemove: seq<string>, d: seq<Dispatch>)
      requires Valid()
      modifies this
      ensures Valid()
      ensures MarkState(old(timers), now, timers, {}, toRemove, d)
      ensures instances == old(instances) && schedules == old(schedules)
      ensures defaultJsonPath == old(defaultJsonPath)
    {
      ghost var t0 := timers;
      var pending := timers.Keys;
      toRemove := [];
      d := [];
      assert DispatchedKeys(d) == {};
      while pending != {}
        invariant instances == old(instances) && schedules == old(schedules)
        invariant defaultJsonPath == old(defaultJsonPath)
        invariant MarkState(t0, now, timers, pending, toRemove, d)
        decreases pending
      {
        var k :| k in pending;
        var e := timers[k];
        if !e.stopped && now >= e.endTime {
          MarkFire(t0, now, timers, pending, toRemove, d, k);
          timers := timers[k := e.(stopped := true)];
          toRemove := toRemove + [k];
          d := d + [Dispatch(k, StopActions(e.instance))];
        } else {
          MarkSkip(t0, now, timers, pending, toRemove, d, k);
        }
        pending := pending - {k};
      }
    }

    /** The second pass of `_check_timers`: delete the collected keys. */
    method DeleteTimers(keys: seq<string>)
      requires Valid()
      modifies this
      ensures Valid()
      ensures timers == old(timers) - KeySet(keys)
      ensures instances == old(instances) && schedules == old(schedules)
      ensures defaultJsonPath == old(defaultJsonPath)
    {
      var j := 0;
      while j < |keys|
        invariant j <= |keys| && timers.Keys <= old(timers).Keys
        invariant instances == old(instances) && schedules == old(schedules)
        invariant defaultJsonPath == old(defaultJsonPath)
        invariant timers == old(timers) - KeySet(keys[..j])
      {
        assert keys[..j + 1][..j] == keys[..j];
        timers := timers - {keys[j]};
        j := j + 1;
      }
      assert keys[..j] == keys;
    }

    /**
     * `_check_schedules`: check every schedule entry at the same minute, each
     * with its own status fetch. The model visits entries in an arbitrary
     * order; the source's insertion order is not modelled (see README).
     */
    method CheckSchedules(hour: int, minute: int, fetch: string -> FetchOutcome) returns (d: seq<Dispatch>)
      requires Valid()
      modifies this
      ensures Valid()
      ensures schedules == SchedulesAfter(old(schedules), MinutesOfDay(hour, minute), fetch)
      ensures DistinctKeys(d)
      ensures forall k :: k in DispatchedKeys(d) <==>
                k in old(schedules) && PassDecision(old(schedules), k, MinutesOfDay(hour, minute), fetch) != Hold
      ensures forall i :: 0 <= i < |d| ==>
                d[i].key in old(schedules)
                && [d[i]] == DecisionDispatch(d[i].key, old(schedules)[d[i].key],
                               PassDecision(old(schedules), d[i].key, MinutesOfDay(hour, minute), fetch),
                               defaultJsonPath)
      ensures instances == old(instances) && timers == old(timers)
      ensures defaultJsonPath == old(defaultJsonPath)
    {
      ghost var s0 := schedules;
      ghost var cur := MinutesOfDay(hour, minute);
      var pending := schedules.Keys;
      d := [];
      assert DispatchedKeys(d) == {};
      while pending != {}
        invariant Valid()
        invariant instances == old(instances) && timers == old(timers)
        invariant defaultJsonPath == old(defaultJsonPath)
        invariant PassState(s0, cur, fetch, defaultJsonPath, schedules, pending, d)
        decreases pending
      {
        var k :| k in pending;
        PassStep(s0, cur, fetch, defaultJsonPath, schedules, pending, d, k);
        var more := CheckScheduleForInstance(k, hour, minute, fetch(k));
        d := d + more;
        pending := pending - {k};
      }
      PassDone(s0, cur, fetch, defaultJsonPath, schedules, d);
    }

    /**
     * `_on_panel_advanced_run` for the instance at position `i`: store the
     * dialog's configuration on the instance, stop there for "save", make
     * sure a work order is known when a fresh run is asked for (`picked` is
     * the file chosen in the file dialog, empty when cancelled), then start
     * the chosen mode. Any mode other than "none" and "timer" is run as a
     * schedule. `now` and `latest` are the clock and its last representable
     * second, as for `StartTimerMode`.
     */
    method AdvancedRun(i: nat, result: Option<DialogResult>, picked: string, now: int, latest: int,
                       hour: int, minute: int, fetched: FetchOutcome)
      returns (d: seq<Dispatch>)
      requires Valid() && i < |instances|
      modifies this
      ensures Valid()
      ensures result.None? ==>
                instances == old(instances) && timers == old(timers) && schedules == old(schedules)
                && defaultJsonPath == old(defaultJsonPath) && d == []
      ensures result.Some? ==> instances == old(instances)[i := SetAdvancedConfig(old(instances)[i], result.value.config)]
      ensures result.Some? && result.value.saveOnly ==>
                timers == old(timers) && schedules == old(schedules) && defaultJsonPath == old(defaultJsonPath) && d == []
      ensures result.Some? && !result.value.saveOnly ==>
                var c := result.value.config;
                var needsPath := !c.useResume && old(defaultJsonPath) == [];
                && defaultJsonPath == (if needsPath then picked else old(defaultJsonPath))
                && (needsPath && picked == [] ==> timers == old(timers) && schedules == old(schedules) && d == [])
                && (!(needsPath && picked == []) ==> ModeStarted(instances[i], c, now, latest, hour, minute, fetched, d))
    {
      if result.None? {
        return [];
      }
      var config := result.value.config;
      RegisteredAfterUpdate(instances, i, SetAdvancedConfig(instances[i], config));
      instances := instances[i := SetAdvancedConfig(instances[i], config)];
      var inst := instances[i];
      if result.value.saveOnly {
        return [];
      }
      d := RunWithPath(inst, config, picked, now, latest, hour, minute, fetched);
    }

    /** `_on_panel_advanced_run` after the configuration is stored: choose a work order if needed, then start. */
    method RunWithPath(inst: WranglerInstance, config: AdvancedRunConfig, picked: string, now: int, latest: int,
                       hour: int, minute: int, fetched: FetchOutcome)
      returns (d: seq<Dispatch>)
      requires Valid() && inst in instances
      modifies this
      ensures Valid()
      ensures instances == old(instances)
      ensures var needsPath := !config.useResume && old(defaultJsonPath) == [];
              && defaultJsonPath == (if needsPath then picked else old(defaultJsonPath))
              && (needsPath && picked == [] ==> timers == old(timers) && schedules == old(schedules) && d == [])
              && (!(needsPath && picked == []) ==> ModeStarted(inst, config, now, latest, hour, minute, fetched, d))
    {
      if !config.useResume && defaultJsonPath == [] {
        if picked == [] {
          return [];
        }
        defaultJsonPath := picked;
      }
      d := StartMode(inst, config, now, latest, hour, minute, fetched);
    }

    /**
     * What starting `config`'s mode for `inst` does to the two tables and
     * dispatches, from the state before the start.
     */
    twostate predicate ModeStarted(inst: WranglerInstance, config: AdvancedRunConfig, now: int, latest: int,
                                   hour: int, minute: int, fetched: FetchOutcome, d: seq<Dispatch>)
      reads this
    {
      && (config.mode == ModeNone ==>
            timers == old(timers) && schedules == old(schedules)
            && d == [Dispatch(KeyOf(inst), StartActions(config, defaultJsonPath))])
      && (config.mode == ModeTimer ==>
            && schedules == old(schedules)
            && (now + TimerSeconds(config) > latest ==> timers == old(timers) && d == [])
            && (now + TimerSeconds(config) <= latest ==>
                  && timers == old(timers)[KeyOf(inst) := TimerEntry(now + TimerSeconds(config), false, inst)]
                  && d == [Dispatch(KeyOf(inst), StartActions(config, defaultJsonPath))]))
      && (config.mode != ModeNone && config.mode != ModeTimer ==>
            var e := ScheduleEntry(config, inst, NoAction);
            var dec := Decide(e, MinutesOfDay(hour, minute), GetStatus(fetched).isExecuting);
            && timers == old(timers)
            && schedules == old(schedules)[KeyOf(inst) := Apply(e, dec)]
            && d == DecisionDispatch(KeyOf(inst), e, dec, defaultJsonPath))
    }

    /** The mode dispatch at the end of `_on_panel_advanced_run`. */
    method StartMode(inst: WranglerInstance, config: AdvancedRunConfig, now: int, latest: int,
                     hour: int, minute: int, fetched: FetchOutcome)
      returns (d: seq<Dispatch>)
      requires Valid() && inst in instances
      modifies this
      ensures Valid()
      ensures instances == old(instances) && defaultJsonPath == old(defaultJsonPath)
      ensures ModeStarted(inst, config, now, latest, hour, minute, fetched, d)
    {
      if config.mode == ModeNone {
        var one := NoneModeDispatch(inst, config);
        d := [one];
      } else if config.mode == ModeTimer {
        d := StartTimerMode(inst, config, now, latest);
      } else {
        d := StartScheduleMode(inst, config, hour, minute, fetched);
      }
    }

    /**
     * `_start_all`: with no default work order the file dialog's choice is
     * used (`picked`, empty when cancelled, in which case nothing is sent);
     * then every enabled instance is asked to run it.
     */
    method StartAll(picked: string, ok: nat -> bool) returns (path: string, t: Tally, contacted: seq<nat>)
      ensures path == if defaultJsonPath != [] then defaultJsonPath else picked
      ensures path == [] ==> t == Tally(0, 0) && contacted == []
      ensures path != [] ==> contacted == EnabledBelow(instances, |instances|)
      ensures t.successes == CountWhere(contacted, ok) && t.successes + t.failures == |contacted|
    {
      path := if defaultJsonPath != [] then defaultJsonPath else picked;
      if path == [] {
        return path, Tally(0, 0), [];
      }
      t, contacted := RequestAll(instances, ok);
    }

    /** `_stop_all`: ask every enabled instance to stop gently. */
    method StopAll(ok: nat -> bool) returns (t: Tally, contacted: seq<nat>)
      ensures contacted == EnabledBelow(instances, |instances|)
      ensures t.successes == CountWhere(contacted, ok) && t.successes + t.failures == |contacted|
    {
      t, contacted := RequestAll(instances, ok);
    }

    /** `_resume_all`: unreachable instances count as failed. */
    method ResumeAllTk(fetch: nat -> FetchOutcome, ok: nat -> bool)
      returns (t: ResumeTally, probed: seq<nat>, resumed: seq<nat>)
      ensures probed == EnabledBelow(instances, |instances|)
      ensures resumed == EligibleAmong(probed, fetch)
      ensures t.successes + t.failures + t.skipped == |probed|
      ensures t.successes == CountWhere(resumed, ok)
      ensures t.failures == |resumed| - t.successes + CountUnreachable(probed, fetch)
    {
      t, probed, resumed := ResumeAll(Tk, instances, fetch, ok);
      ResumeTallyFacts(probed, fetch, ok);
    }

    /**
     * Removing an instance ends its automation at once: whatever the clock
     * and the agents say, the next timer check and schedule pass dispatch
     * nothing for its key.
     */
    method RemoveThenTick(inst: WranglerInstance, now: int, hour: int, minute: int, fetch: string -> FetchOutcome)
      returns (stops: seq<Dispatch>, scheduled: seq<Dispatch>)
      requires Valid()
      modifies this
      ensures Valid()
      ensures KeyOf(inst) !in DispatchedKeys(stops) && KeyOf(inst) !in DispatchedKeys(scheduled)
      ensures KeyOf(inst) !in timers && KeyOf(inst) !in schedules
    {
      var _ := Remove(inst);
      stops := CheckTimers(now);
      scheduled := CheckSchedules(hour, minute, fetch);
    }
  }

  /**
   * An unreachable agent reads as "not executing": it is never stopped by
   * its schedule, and inside the window it is sent a start unless one was
   * already sent.
   */
  lemma UnreachableAgentTick(e: ScheduleEntry, cur: int, f: FetchOutcome)
    requires !GetStatus(f).reachable
    ensures Decide(e, cur, GetStatus(f).isExecuting) != StopNow
    ensures Decide(e, cur, GetStatus(f).isExecuting) == StartNow <==>
              EntryInWindow(e, cur) && e.lastAction != Started
  {
  }

  /** The start a schedule or timer sends for a fresh run with no default work order fails before any request. */
  lemma StartWithoutWorkOrder(config: AdvancedRunConfig)
    requires !config.useResume
    ensures StartActions(config, []) == [Run([])]
    ensures RunPayloadFor(Some([]), None).Err?
  {
  }
}

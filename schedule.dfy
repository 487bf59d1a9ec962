/**
 * The automation rules of the Tk edition's supervisor as values: the actions
 * it dispatches, the timer and schedule entries it keeps, the daily window
 * test, and the start/stop decision of one schedule check.
 */
module Automation {
  import opened RunConfig

  /** One request sent to an agent. */
  datatype Action = Run(jsonPath: string) | Resume | Stop | GoHome

  /**
   * The work of one background thread the supervisor starts: its agent's
   * `"host:port"` key and the requests it sends, in order.
   */
  datatype Dispatch = Dispatch(key: string, actions: seq<Action>)

  /** A run start: resume incomplete orders, or run the given work order. */
  function StartActions(config: AdvancedRunConfig, jsonPath: string): (a: seq<Action>)
    ensures |a| == 1 && (a[0] == Resume <==> config.useResume)
    ensures !config.useResume ==> a == [Run(jsonPath)]
  {
    if config.useResume then [Resume] else [Run(jsonPath)]
  }

  /** An automatic stop: a gentle stop, then a go-home when the instance asks for one. */
  function StopActions(inst: WranglerInstance): (a: seq<Action>)
    ensures a != [] && a[0] == Stop
    ensures GoHome in a <==> inst.goHomeAfterSession
    ensures inst.goHomeAfterSession ==> a == [Stop, GoHome]
    ensures !inst.goHomeAfterSession ==> a == [Stop]
  {
    if inst.goHomeAfterSession then [Stop, GoHome] else [Stop]
  }

  // ---------------------------------------------------------------- timers

  /** An entry of `active_timers`; the time is in seconds on the wall clock. */
  datatype TimerEntry = TimerEntry(endTime: int, stopped: bool, instance: WranglerInstance)

  /** The length of a timer run in seconds. */
  function TimerSeconds(config: AdvancedRunConfig): int {
    config.timerHours * 3600 + config.timerMinutes * 60
  }

  /** An entry fires when it has not fired yet and its end time has come. */
  predicate Fires(e: TimerEntry, now: int) {
    !e.stopped && now >= e.endTime
  }

  function FiredKeys(t: map<string, TimerEntry>, now: int): set<string> {
    set k | k in t && Fires(t[k], now)
  }

  /** The table after one check: the fired entries are gone, the others untouched. */
  function TimersAfter(t: map<string, TimerEntry>, now: int): (r: map<string, TimerEntry>)
    ensures r.Keys == t.Keys - FiredKeys(t, now)
    ensures forall k :: k in r ==> r[k] == t[k]
  {
    map k | k in t && !Fires(t[k], now) :: t[k]
  }

  /** How often the entry for `k` fires over successive checks at the given times. */
  function FireCount(t: map<string, TimerEntry>, times: seq<int>, k: string): nat {
    if times == [] then 0
    else (if k in FiredKeys(t, times[0]) then 1 else 0) + FireCount(TimersAfter(t, times[0]), times[1..], k)
  }

  lemma {:induction false} FireCountWithoutEntry(t: map<string, TimerEntry>, times: seq<int>, k: string)
    requires k !in t
    ensures FireCount(t, times, k) == 0
  {
    if times != [] {
      FireCountWithoutEntry(TimersAfter(t, times[0]), times[1..], k);
    }
  }

  /**
   * Each armed timer produces at most one stop, however many checks follow,
   * and exactly one if it was armed and not yet fired and some check comes
   * at or after its end time.
   */
  lemma {:induction false} TimerFiresAtMostOnce(t: map<string, TimerEntry>, times: seq<int>, k: string)
    ensures FireCount(t, times, k) <= 1
    ensures (k in t && !t[k].stopped && exists i :: 0 <= i < |times| && times[i] >= t[k].endTime)
              ==> FireCount(t, times, k) == 1
  {
    if times != [] {
      var after := TimersAfter(t, times[0]);
      if k in FiredKeys(t, times[0]) {
        FireCountWithoutEntry(after, times[1..], k);
      } else {
        TimerFiresAtMostOnce(after, times[1..], k);
        if k in t && !t[k].stopped && (exists i :: 0 <= i < |times| && times[i] >= t[k].endTime) {
          var i :| 0 <= i < |times| && times[i] >= t[k].endTime;
          assert i != 0;
          assert times[1..][i - 1] == times[i];
        }
      }
    }
  }

  /** A timer already past its end time stops exactly once over any non-empty run of later checks. */
  lemma ExpiredTimerStopsOnce(t: map<string, TimerEntry>, times: seq<int>, k: string)
    requires k in t && !t[k].stopped && times != []
    requires forall i :: 0 <= i < |times| ==> times[i] > t[k].endTime
    ensures FireCount(t, times, k) == 1
  {
    TimerFiresAtMostOnce(t, times, k);
  }

  // ------------------------------------------------------------- schedules

  /** `last_action` of a schedule entry: `None`, `"started"` or `"stopped"`. */
  datatype LastAction = NoAction | Started | Stopped

  /** An entry of `active_schedules`. */
  datatype ScheduleEntry = ScheduleEntry(config: AdvancedRunConfig, instance: WranglerInstance, lastAction: LastAction)

  function MinutesOfDay(hour: int, minute: int): int {
    hour * 60 + minute
  }

  /** Whether `cur` lies in the daily window from `start` to `end`, which wraps past midnight when `start > end`. */
  function InWindow(start: int, end: int, cur: int): bool {
    if start <= end then start <= cur < end else cur >= start || cur < end
  }

  /** A same-day window is half open; a window that starts where it ends is always closed. */
  lemma SameDayWindow(start: int, end: int, cur: int)
    requires start <= end
    ensures InWindow(start, end, cur) <==> start <= cur < end
    ensures start == end ==> !InWindow(start, end, cur)
  {
  }

  /** An overnight window is exactly the complement of the same-day window between its ends. */
  lemma OvernightIsComplement(start: int, end: int, cur: int)
    requires start > end
    ensures InWindow(start, end, cur) <==> !InWindow(end, start, cur)
    ensures InWindow(start, end, cur) <==> cur >= start || cur < end
  {
  }

  /** The number of minutes below `n` that are in the window. */
  function MinutesInWindow(start: int, end: int, n: nat): nat {
    if n == 0 then 0 else MinutesInWindow(start, end, n - 1) + (if InWindow(start, end, n - 1) then 1 else 0)
  }

  function Clamp(x: int, lo: int, hi: int): int {
    if x < lo then lo else if x > hi then hi else x
  }

  lemma {:induction false} MinutesInWindowPrefix(start: int, end: int, n: nat)
    requires 0 <= start && 0 <= end
    ensures start <= end ==> MinutesInWindow(start, end, n) == Clamp(n, start, end) - start
    ensures start > end ==> MinutesInWindow(start, end, n) == Clamp(n, 0, end) + Clamp(n, start, n) - start
  {
    if n > 0 {
      MinutesInWindowPrefix(start, end, n - 1);
    }
  }

  /** Over one day, a window is open for `end - start` minutes, or `1440 - start + end` when it wraps. */
  lemma WindowLength(start: int, end: int)
    requires 0 <= start < 1440 && 0 <= end < 1440
    ensures MinutesInWindow(start, end, 1440) == if start <= end then end - start else 1440 - start + end
  {
    MinutesInWindowPrefix(start, end, 1440);
  }

  /** The windows 08:00-22:00 and 22:00-06:00 at their edges. */
  lemma WindowExamples()
    ensures !InWindow(MinutesOfDay(8, 0), MinutesOfDay(22, 0), MinutesOfDay(7, 59))
    ensures InWindow(MinutesOfDay(8, 0), MinutesOfDay(22, 0), MinutesOfDay(8, 0))
    ensures InWindow(MinutesOfDay(8, 0), MinutesOfDay(22, 0), MinutesOfDay(21, 59))
    ensures !InWindow(MinutesOfDay(8, 0), MinutesOfDay(22, 0), MinutesOfDay(22, 0))
    ensures InWindow(MinutesOfDay(22, 0), MinutesOfDay(6, 0), MinutesOfDay(23, 0))
    ensures InWindow(MinutesOfDay(22, 0), MinutesOfDay(6, 0), MinutesOfDay(5, 59))
    ensures !InWindow(MinutesOfDay(22, 0), MinutesOfDay(6, 0), MinutesOfDay(6, 0))
    ensures !InWindow(MinutesOfDay(22, 0), MinutesOfDay(6, 0), MinutesOfDay(12, 0))
  {
  }

  function EntryInWindow(e: ScheduleEntry, cur: int): bool {
    InWindow(MinutesOfDay(e.config.scheduleStartHour, e.config.scheduleStartMinute),
             MinutesOfDay(e.config.scheduleEndHour, e.config.scheduleEndMinute), cur)
  }

  /** The outcome of one schedule check. */
  datatype Decision = StartNow | StopNow | Hold

  /** The rule of `_check_schedule_for_instance`, on the agent's fetched `is_executing`. */
  function Decide(e: ScheduleEntry, cur: int, executing: bool): Decision {
    if EntryInWindow(e, cur) then
      if e.lastAction != Started && !executing then StartNow else Hold
    else
      if e.lastAction != Stopped && executing then StopNow else Hold
  }

  /** The entry after the decision: only `last_action` ever changes. */
  function Apply(e: ScheduleEntry, d: Decision): (r: ScheduleEntry)
    ensures r.config == e.config && r.instance == e.instance
    ensures d == Hold ==> r == e
  {
    match d
    case StartNow => e.(lastAction := Started)
    case StopNow => e.(lastAction := Stopped)
    case Hold => e
  }

  /** What the decision dispatches for the entry's agent. */
  function DecisionDispatch(key: string, e: ScheduleEntry, d: Decision, jsonPath: string): (r: seq<Dispatch>)
    ensures d == Hold <==> r == []
    ensures |r| <= 1 && forall i :: 0 <= i < |r| ==> r[i].key == key
  {
    match d
    case StartNow => [Dispatch(key, StartActions(e.config, jsonPath))]
    case StopNow => [Dispatch(key, StopActions(e.instance))]
    case Hold => []
  }

  /** The decision rule in full: when a start, when a stop, and nothing otherwise. */
  lemma DecideCases(e: ScheduleEntry, cur: int, executing: bool)
    ensures Decide(e, cur, executing) == StartNow <==>
              EntryInWindow(e, cur) && e.lastAction != Started && !executing
    ensures Decide(e, cur, executing) == StopNow <==>
              !EntryInWindow(e, cur) && e.lastAction != Stopped && executing
    ensures Decide(e, cur, executing) == Hold ==> Apply(e, Hold) == e
  {
  }

  /** After a start, no in-window check starts again, whatever the agent reports. */
  lemma NoSecondStart(e: ScheduleEntry, cur: int, executing: bool, cur': int, executing': bool)
    requires Decide(e, cur, executing) == StartNow
    requires EntryInWindow(e, cur')
    ensures Decide(Apply(e, StartNow), cur', executing') == Hold
  {
  }

  /** After a stop, no out-of-window check stops again. */
  lemma NoSecondStop(e: ScheduleEntry, cur: int, executing: bool, cur': int, executing': bool)
    requires Decide(e, cur, executing) == StopNow
    requires !EntryInWindow(e, cur')
    ensures Decide(Apply(e, StopNow), cur', executing') == Hold
  {
  }

  /** One check's inputs: the minute of the day and whether the agent reported itself executing. */
  datatype Tick = Tick(cur: int, executing: bool)

  /** The starts and stops dispatched over successive checks, in order. */
  function Decisions(e: ScheduleEntry, ticks: seq<Tick>): seq<Decision>
    decreases |ticks|
  {
    if ticks == [] then []
    else
      var d := Decide(e, ticks[0].cur, ticks[0].executing);
      (if d == Hold then [] else [d]) + Decisions(Apply(e, d), ticks[1..])
  }

  /**
   * Starts and stops alternate: two starts always have a stop between them
   * and two stops a start; the first differs from the entry's last action.
   */
  lemma {:induction false} DecisionsAlternate(e: ScheduleEntry, ticks: seq<Tick>)
    ensures forall i :: 0 <= i < |Decisions(e, ticks)| ==> Decisions(e, ticks)[i] != Hold
    ensures forall i :: 0 <= i < |Decisions(e, ticks)| - 1 ==>
              Decisions(e, ticks)[i] != Decisions(e, ticks)[i + 1]
    ensures Decisions(e, ticks) != [] && e.lastAction == Started ==> Decisions(e, ticks)[0] == StopNow
    ensures Decisions(e, ticks) != [] && e.lastAction == Stopped ==> Decisions(e, ticks)[0] == StartNow
    decreases |ticks|
  {
    if ticks != [] {
      var d := Decide(e, ticks[0].cur, ticks[0].executing);
      var rest := Decisions(Apply(e, d), ticks[1..]);
      DecisionsAlternate(Apply(e, d), ticks[1..]);
      assert Decisions(e, ticks) == (if d == Hold then [] else [d]) + rest;
    }
  }

  /** While the clock stays inside the window, at most one start is dispatched and never a stop. */
  lemma {:induction false} InWindowStartsOnce(e: ScheduleEntry, ticks: seq<Tick>)
    requires forall i :: 0 <= i < |ticks| ==> EntryInWindow(e, ticks[i].cur)
    ensures |Decisions(e, ticks)| <= 1
    ensures forall i :: 0 <= i < |Decisions(e, ticks)| ==> Decisions(e, ticks)[i] == StartNow
    ensures e.lastAction == Started ==> Decisions(e, ticks) == []
    decreases |ticks|
  {
    if ticks != [] {
      var d := Decide(e, ticks[0].cur, ticks[0].executing);
      var e' := Apply(e, d);
      assert forall i :: 0 <= i < |ticks[1..]| ==> EntryInWindow(e', ticks[1..][i].cur) by {
        forall i | 0 <= i < |ticks[1..]| ensures EntryInWindow(e', ticks[1..][i].cur) {
          assert ticks[1..][i] == ticks[i + 1];
        }
      }
      InWindowStartsOnce(e', ticks[1..]);
    }
  }
}

/**
 * The per-instance run configuration (`AdvancedRunConfig`), the managed
 * instance record (`WranglerInstance`) and the dictionary form in which an
 * instance keeps its configuration (`set_advanced_config` /
 * `get_advanced_config`).
 */
module RunConfig {
  import opened Wrappers
  import Text

  /** The three mode strings the configuration dialog offers. */
  const ModeNone: string := "none"
  const ModeTimer: string := "timer"
  const ModeSchedule: string := "schedule"

  /** `AdvancedRunConfig`; the mode stays a string, as persisted. */
  datatype AdvancedRunConfig = AdvancedRunConfig(
    mode: string,
    timerHours: int,
    timerMinutes: int,
    scheduleStartHour: int,
    scheduleStartMinute: int,
    scheduleEndHour: int,
    scheduleEndMinute: int,
    useResume: bool)

  /** The dataclass defaults: manual mode, 0h30m, 08:00 to 22:00, run new orders. */
  const DefaultConfig: AdvancedRunConfig :=
    AdvancedRunConfig(ModeNone, 0, 30, 8, 0, 22, 0, false)

  /** A value stored in the configuration dictionary. */
  datatype Value = IntValue(i: int) | BoolValue(b: bool) | TextValue(s: string)

  type ConfigDict = map<string, Value>

  /** The eight dictionary keys, one per field. */
  const Fields: set<string> := {
    "mode", "timer_hours", "timer_minutes",
    "schedule_start_hour", "schedule_start_minute",
    "schedule_end_hour", "schedule_end_minute", "use_resume"
  }

  /** `WranglerInstance`: a managed agent and its persisted configuration. */
  datatype WranglerInstance = WranglerInstance(
    name: string,
    host: string,
    port: int,
    enabled: bool,
    goHomeAfterSession: bool,
    advancedConfig: Option<ConfigDict>)

  /** A freshly added instance: enabled, no go-home, no stored configuration. */
  function NewInstance(name: string, host: string, port: int): (inst: WranglerInstance)
    ensures inst.name == name && inst.host == host && inst.port == port
    ensures inst.enabled && !inst.goHomeAfterSession && inst.advancedConfig == None
  {
    WranglerInstance(name, host, port, true, false, None)
  }

  /** The `"host:port"` string under which panels, timers and schedules are kept. */
  function KeyOf(inst: WranglerInstance): string {
    inst.host + ":" + Text.IntToString(inst.port)
  }

  /** The constructor's complaint when the dictionary does not fit `AdvancedRunConfig`. */
  datatype ConfigError =
    | UnexpectedKeyword   // a key that is not one of the eight fields
    | IllTypedField(field: string)

  /** `set_advanced_config`: the dictionary of all eight fields. */
  function ToDict(c: AdvancedRunConfig): (d: ConfigDict)
    ensures d.Keys == Fields
  {
    map[
      "mode" := TextValue(c.mode),
      "timer_hours" := IntValue(c.timerHours),
      "timer_minutes" := IntValue(c.timerMinutes),
      "schedule_start_hour" := IntValue(c.scheduleStartHour),
      "schedule_start_minute" := IntValue(c.scheduleStartMinute),
      "schedule_end_hour" := IntValue(c.scheduleEndHour),
      "schedule_end_minute" := IntValue(c.scheduleEndMinute),
      "use_resume" := BoolValue(c.useResume)
    ]
  }

  function IntField(d: ConfigDict, key: string, default: int): Result<int, ConfigError> {
    if key !in d then Ok(default)
    else if d[key].IntValue? then Ok(d[key].i)
    else Err(IllTypedField(key))
  }

  function BoolField(d: ConfigDict, key: string, default: bool): Result<bool, ConfigError> {
    if key !in d then Ok(default)
    else if d[key].BoolValue? then Ok(d[key].b)
    else Err(IllTypedField(key))
  }

  function TextField(d: ConfigDict, key: string, default: string): Result<string, ConfigError> {
    if key !in d then Ok(default)
    else if d[key].TextValue? then Ok(d[key].s)
    else Err(IllTypedField(key))
  }

  /**
   * `AdvancedRunConfig(**d)`: a missing key takes the field's default, an
   * unknown key is refused.
   */
  function FromDict(d: ConfigDict): Result<AdvancedRunConfig, ConfigError> {
    if !(d.Keys <= Fields) then Err(UnexpectedKeyword)
    else
      var mode := TextField(d, "mode", DefaultConfig.mode);
      var th := IntField(d, "timer_hours", DefaultConfig.timerHours);
      var tm := IntField(d, "timer_minutes", DefaultConfig.timerMinutes);
      var sh := IntField(d, "schedule_start_hour", DefaultConfig.scheduleStartHour);
      var sm := IntField(d, "schedule_start_minute", DefaultConfig.scheduleStartMinute);
      var eh := IntField(d, "schedule_end_hour", DefaultConfig.scheduleEndHour);
      var em := IntField(d, "schedule_end_minute", DefaultConfig.scheduleEndMinute);
      var ur := BoolField(d, "use_resume", DefaultConfig.useResume);
      if mode.Err? then Err(mode.error)
      else if th.Err? then Err(th.error)
      else if tm.Err? then Err(tm.error)
      else if sh.Err? then Err(sh.error)
      else if sm.Err? then Err(sm.error)
      else if eh.Err? then Err(eh.error)
      else if em.Err? then Err(em.error)
      else if ur.Err? then Err(ur.error)
      else Ok(AdvancedRunConfig(mode.value, th.value, tm.value, sh.value, sm.value,
                                eh.value, em.value, ur.value))
  }

  /** `WranglerInstance.set_advanced_config`. */
  function SetAdvancedConfig(inst: WranglerInstance, c: AdvancedRunConfig): (r: WranglerInstance)
    ensures r == inst.(advancedConfig := Some(ToDict(c)))
    ensures KeyOf(r) == KeyOf(inst)
  {
    inst.(advancedConfig := Some(ToDict(c)))
  }

  /** `WranglerInstance.get_advanced_config`: the defaults when nothing is stored. */
  function GetAdvancedConfig(inst: WranglerInstance): Result<AdvancedRunConfig, ConfigError> {
    match inst.advancedConfig
    case None => Ok(DefaultConfig)
    case Some(d) => FromDict(d)
  }

  /** Reading back what was stored gives the same configuration. */
  lemma GetAfterSet(inst: WranglerInstance, c: AdvancedRunConfig)
    ensures GetAdvancedConfig(SetAdvancedConfig(inst, c)) == Ok(c)
  {
    var d := ToDict(c);
    assert d.Keys <= Fields;
  }

  /** And storing what was read back stores an equal dictionary: the two forms are in bijection. */
  lemma SetAfterGet(d: ConfigDict)
    requires d.Keys == Fields && FromDict(d).Ok?
    ensures ToDict(FromDict(d).value) == d
  {
    var r := ToDict(FromDict(d).value);
    forall k | k in Fields ensures r[k] == d[k] {
    }
  }

  /** An instance with nothing stored reports the dataclass defaults. */
  lemma GetWithoutStoredConfig(inst: WranglerInstance)
    requires inst.advancedConfig == None
    ensures GetAdvancedConfig(inst) == Ok(AdvancedRunConfig("none", 0, 30, 8, 0, 22, 0, false))
  {
  }

  /** A partial dictionary keeps the stored fields and defaults the others. */
  lemma FromDictDefaultsMissingFields(d: ConfigDict)
    requires d.Keys <= Fields && FromDict(d).Ok?
    ensures var c := FromDict(d).value;
            && c.mode == (if "mode" in d then d["mode"].s else "none")
            && c.timerHours == (if "timer_hours" in d then d["timer_hours"].i else 0)
            && c.timerMinutes == (if "timer_minutes" in d then d["timer_minutes"].i else 30)
            && c.scheduleStartHour == (if "schedule_start_hour" in d then d["schedule_start_hour"].i else 8)
            && c.scheduleStartMinute == (if "schedule_start_minute" in d then d["schedule_start_minute"].i else 0)
            && c.scheduleEndHour == (if "schedule_end_hour" in d then d["schedule_end_hour"].i else 22)
            && c.scheduleEndMinute == (if "schedule_end_minute" in d then d["schedule_end_minute"].i else 0)
            && c.useResume == ("use_resume" in d && d["use_resume"].b)
  {
  }

  /** A dictionary with a key outside the eight fields is refused. */
  lemma FromDictRejectsUnknownKey(d: ConfigDict, k: string)
    requires k in d && k !in Fields
    ensures FromDict(d) == Err(UnexpectedKeyword)
  {
  }
}

/**
 * The checks the configuration dialog and the add-instance dialog apply to
 * what the user typed. Turning a text field into a number (Python's `int()`)
 * is taken as given: each numeric field arrives as `Some(n)` or, when
 * `int()` would raise, as `None`.
 */
module Dialogs {
  import opened Wrappers
  import opened RunConfig
  import Text

  /** The advanced-run dialog's form after `int()` has been applied to its numeric entries. */
  datatype FormValues = FormValues(
    mode: string,
    useResume: bool,
    timerHours: Option<int>,
    timerMinutes: Option<int>,
    startHour: Option<int>,
    startMinute: Option<int>,
    endHour: Option<int>,
    endMinute: Option<int>)

  /** The `ValueError` raised while building the configuration, in the order they are tried. */
  datatype FormError =
    | NotANumber         // `int()` refused one of the six entries
    | NegativeTime       // "Time cannot be negative"
    | TimerTooShort      // "Timer must be at least 1 minute"
    | StartHourRange     // "Start hour must be 0-23"
    | StartMinuteRange   // "Start minute must be 0-59"
    | EndHourRange       // "End hour must be 0-23"
    | EndMinuteRange     // "End minute must be 0-59"

  predicate AllParsed(f: FormValues) {
    && f.timerHours.Some? && f.timerMinutes.Some?
    && f.startHour.Some? && f.startMinute.Some?
    && f.endHour.Some? && f.endMinute.Some?
  }

  /** Every field of the form goes into the configuration, whatever the mode. */
  function Assemble(f: FormValues): AdvancedRunConfig
    requires AllParsed(f)
  {
    AdvancedRunConfig(f.mode, f.timerHours.value, f.timerMinutes.value,
                      f.startHour.value, f.startMinute.value,
                      f.endHour.value, f.endMinute.value, f.useResume)
  }

  predicate IsHour(h: int) { 0 <= h <= 23 }
  predicate IsMinute(m: int) { 0 <= m <= 59 }

  /**
   * What an accepted configuration satisfies: only the fields of its own mode
   * are constrained; manual mode and any other mode string constrain nothing.
   */
  predicate ValidFor(c: AdvancedRunConfig) {
    && (c.mode == ModeTimer ==>
          c.timerHours >= 0 && c.timerMinutes >= 0 && (c.timerHours, c.timerMinutes) != (0, 0))
    && (c.mode == ModeSchedule ==>
          && IsHour(c.scheduleStartHour) && IsMinute(c.scheduleStartMinute)
          && IsHour(c.scheduleEndHour) && IsMinute(c.scheduleEndMinute))
  }

  /**
   * `AdvancedRunDialog._build_and_validate_config` (and its duplicate in
   * `_on_start`): all six numbers are read first, then the mode's own checks
   * run in order and the first failing one is reported.
   */
  function BuildAndValidate(f: FormValues): (r: Result<AdvancedRunConfig, FormError>)
    ensures r.Ok? <==> AllParsed(f) && ValidFor(Assemble(f))
    ensures r.Ok? ==> r.value == Assemble(f)
    ensures !AllParsed(f) ==> r == Err(NotANumber)
  {
    if !AllParsed(f) then Err(NotANumber)
    else
      var c := Assemble(f);
      if c.mode == ModeTimer then
        if c.timerHours < 0 || c.timerMinutes < 0 then Err(NegativeTime)
        else if c.timerHours == 0 && c.timerMinutes == 0 then Err(TimerTooShort)
        else Ok(c)
      else if c.mode == ModeSchedule then
        if !IsHour(c.scheduleStartHour) then Err(StartHourRange)
        else if !IsMinute(c.scheduleStartMinute) then Err(StartMinuteRange)
        else if !IsHour(c.scheduleEndHour) then Err(EndHourRange)
        else if !IsMinute(c.scheduleEndMinute) then Err(EndMinuteRange)
        else Ok(c)
      else Ok(c)
  }

  /** Timer mode: the two errors and when each is reported. */
  lemma TimerModeChecks(f: FormValues)
    requires AllParsed(f) && f.mode == ModeTimer
    ensures (f.timerHours.value < 0 || f.timerMinutes.value < 0)
              <==> BuildAndValidate(f) == Err(NegativeTime)
    ensures (f.timerHours.value == 0 && f.timerMinutes.value == 0)
              <==> BuildAndValidate(f) == Err(TimerTooShort)
    ensures BuildAndValidate(f).Ok? ==> f.timerHours.value * 60 + f.timerMinutes.value >= 1
  {
  }

  /** Timer mode never looks at the schedule entries. */
  lemma TimerModeIgnoresSchedule(f: FormValues, g: FormValues)
    requires AllParsed(f) && AllParsed(g) && f.mode == g.mode == ModeTimer
    requires f.timerHours == g.timerHours && f.timerMinutes == g.timerMinutes
    ensures BuildAndValidate(f).Ok? == BuildAndValidate(g).Ok?
  {
  }

  /** Schedule mode never looks at the timer entries. */
  lemma ScheduleModeIgnoresTimer(f: FormValues, g: FormValues)
    requires AllParsed(f) && AllParsed(g) && f.mode == g.mode == ModeSchedule
    requires f.startHour == g.startHour && f.startMinute == g.startMinute
    requires f.endHour == g.endHour && f.endMinute == g.endMinute
    ensures BuildAndValidate(f).Ok? == BuildAndValidate(g).Ok?
  {
  }

  /** Schedule mode: accepted exactly when both times are real clock times; the timer entries are not looked at. */
  lemma ScheduleModeChecks(f: FormValues)
    requires AllParsed(f) && f.mode == ModeSchedule
    ensures BuildAndValidate(f).Ok? <==>
              && IsHour(f.startHour.value) && IsMinute(f.startMinute.value)
              && IsHour(f.endHour.value) && IsMinute(f.endMinute.value)
    ensures !IsHour(f.startHour.value) ==> BuildAndValidate(f) == Err(StartHourRange)
  {
  }

  /** Any other mode accepts whatever parsed, out-of-range values included. */
  lemma OtherModesUnchecked(f: FormValues)
    requires AllParsed(f) && f.mode != ModeTimer && f.mode != ModeSchedule
    ensures BuildAndValidate(f) == Ok(Assemble(f))
  {
  }

  /** The boundary cases of the configuration rules. */
  lemma ValidationExamples()
    ensures BuildAndValidate(FormValues("timer", false, Some(0), Some(0), Some(8), Some(0), Some(22), Some(0)))
              == Err(TimerTooShort)
    ensures BuildAndValidate(FormValues("timer", false, Some(0), Some(1), Some(99), Some(0), Some(22), Some(0))).Ok?
    ensures BuildAndValidate(FormValues("schedule", false, Some(0), Some(30), Some(24), Some(0), Some(22), Some(0)))
              == Err(StartHourRange)
    ensures BuildAndValidate(FormValues("schedule", true, Some(-3), Some(0), Some(23), Some(59), Some(0), Some(0))).Ok?
    ensures BuildAndValidate(FormValues("none", false, Some(-1), Some(-1), Some(-1), Some(-1), Some(-1), Some(-1))).Ok?
  {
  }

  /** The add-instance dialog's refusals, in the order they are checked. */
  datatype AddError = NameRequired | HostRequired | PortOutOfRange

  /**
   * `AddInstanceDialog._on_add`: name and host are stripped and must not be
   * empty; the port (the stripped entry passed through `int()`) must lie in
   * 1..65535. The accepted result is the new instance.
   */
  function ValidateNewInstance(nameEntry: string, hostEntry: string, port: Option<int>)
    : (r: Result<WranglerInstance, AddError>)
    ensures r.Ok? <==> Text.Strip(nameEntry) != [] && Text.Strip(hostEntry) != []
                       && port.Some? && 1 <= port.value <= 65535
    ensures r.Ok? ==> r.value == NewInstance(Text.Strip(nameEntry), Text.Strip(hostEntry), port.value)
  {
    var name := Text.Strip(nameEntry);
    var host := Text.Strip(hostEntry);
    if name == [] then Err(NameRequired)
    else if host == [] then Err(HostRequired)
    else if port.None? || port.value < 1 || port.value > 65535 then Err(PortOutOfRange)
    else Ok(NewInstance(name, host, port.value))
  }

  /** A name made only of whitespace is refused, whatever else was typed. */
  lemma BlankNameRefused(nameEntry: string, hostEntry: string, port: Option<int>)
    requires forall k :: 0 <= k < |nameEntry| ==> Text.IsSpace(nameEntry[k])
    ensures ValidateNewInstance(nameEntry, hostEntry, port) == Err(NameRequired)
  {
    Text.StripEmptyIff(nameEntry);
  }

  /** An accepted instance never has a name or host with surrounding whitespace. */
  lemma AcceptedFieldsAreTrimmed(nameEntry: string, hostEntry: string, port: Option<int>)
    requires ValidateNewInstance(nameEntry, hostEntry, port).Ok?
    ensures var inst := ValidateNewInstance(nameEntry, hostEntry, port).value;
            && !Text.IsSpace(inst.name[0]) && !Text.IsSpace(inst.name[|inst.name| - 1])
            && !Text.IsSpace(inst.host[0]) && !Text.IsSpace(inst.host[|inst.host| - 1])
  {
    Text.StripEnds(nameEntry);
    Text.StripEnds(hostEntry);
  }

  /**
   * The Flet edition's add dialog: name and host are stripped, the port only
   * has to parse. Nothing is added when `int()` fails.
   */
  function FletNewInstance(nameEntry: string, hostEntry: string, port: Option<int>)
    : (r: Option<WranglerInstance>)
    ensures r.Some? <==> port.Some?
    ensures r.Some? ==> r.value == NewInstance(Text.Strip(nameEntry), Text.Strip(hostEntry), port.value)
  {
    if port.None? then None
    else Some(NewInstance(Text.Strip(nameEntry), Text.Strip(hostEntry), port.value))
  }

  /**
   * The Flet edition adds instances the Tk edition refuses: a blank name or
   * host, or a port outside 1..65535, as long as the port parses.
   */
  lemma FletAcceptsWhatTkRefuses(nameEntry: string, hostEntry: string, port: int)
    requires Text.Strip(nameEntry) == [] || Text.Strip(hostEntry) == [] || port < 1 || port > 65535
    ensures ValidateNewInstance(nameEntry, hostEntry, Some(port)).Err?
    ensures FletNewInstance(nameEntry, hostEntry, Some(port)).Some?
  {
  }
}

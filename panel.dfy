/**
 * `InstancePanel.update_status` as a mapping from an `InstanceStatus` to what
 * the panel shows: the state label, the character line, the runtime line,
 * the file line and which buttons are enabled. The Tk and the Flet editions
 * share the mapping except for how long a file name may be before it is
 * shortened, and the Tk panel's extra "advanced" button.
 */
module Panel {
  import opened Client
  import Text

  /** The state label: unreachable first, then the known states, else the state's own text. */
  function StateText(st: InstanceStatus): (r: string)
    ensures r != []
    ensures !st.reachable ==> r == "Unreachable"
  {
    if !st.reachable then "Unreachable"
    else if st.state == "executing" then "Executing"
    else if st.state == "pending" then "Pending"
    else if st.state == "idle" then "Idle"
    else if st.state == "stopped" then "Bot Stopped"
    else if st.state == [] then "Unknown"
    else Text.Capitalize(st.state)
  }

  predicate KnownState(s: string) {
    s == "executing" || s == "pending" || s == "idle" || s == "stopped"
  }

  /** The label of a reachable agent depends on its state string only, as listed. */
  lemma StateTextLabels(st: InstanceStatus)
    requires st.reachable
    ensures st.state == "executing" ==> StateText(st) == "Executing"
    ensures st.state == "pending" ==> StateText(st) == "Pending"
    ensures st.state == "idle" ==> StateText(st) == "Idle"
    ensures st.state == "stopped" ==> StateText(st) == "Bot Stopped"
    ensures !KnownState(st.state) && st.state != [] ==> StateText(st) == Text.Capitalize(st.state)
    ensures st.state == [] ==> StateText(st) == "Unknown"
    ensures forall other: InstanceStatus :: other.reachable && other.state == st.state ==>
              StateText(other) == StateText(st)
  {
  }

  /** An unreachable agent's label ignores every other field. */
  lemma UnreachableLabelIgnoresState(a: InstanceStatus, b: InstanceStatus)
    requires !a.reachable && !b.reachable
    ensures StateText(a) == StateText(b)
  {
  }

  /** Hours, minutes and seconds of a running time, as two `divmod` calls give them. */
  datatype Clock = Clock(hours: nat, minutes: nat, seconds: nat)

  function RuntimeParts(total: nat): (c: Clock)
    ensures c.hours * 3600 + c.minutes * 60 + c.seconds == total
    ensures c.minutes < 60 && c.seconds < 60
  {
    var rest := total % 3600;
    Clock(total / 3600, rest / 60, rest % 60)
  }

  /** The decomposition is the only one with minutes and seconds below 60. */
  lemma RuntimePartsUnique(total: nat, c: Clock)
    requires c.hours * 3600 + c.minutes * 60 + c.seconds == total
    requires c.minutes < 60 && c.seconds < 60
    ensures c == RuntimeParts(total)
  {
    var r := RuntimeParts(total);
    assert c.minutes * 60 + c.seconds < 3600;
    assert r.minutes * 60 + r.seconds < 3600;
  }

  function ClockText(c: Clock): string {
    if c.hours > 0 then
      Text.NatToString(c.hours) + "h " + Text.NatToString(c.minutes) + "m "
        + Text.NatToString(c.seconds) + "s"
    else if c.minutes > 0 then
      Text.NatToString(c.minutes) + "m " + Text.NatToString(c.seconds) + "s"
    else Text.NatToString(c.seconds) + "s"
  }

  /** The runtime line: shown only while executing with a positive running time. */
  function RuntimeText(st: InstanceStatus): (r: string)
    ensures r != [] <==> st.isExecuting && st.runtimeSeconds > 0
    ensures r != [] ==> r == "Runtime: " + ClockText(RuntimeParts(st.runtimeSeconds))
  {
    if st.isExecuting && st.runtimeSeconds > 0 then
      "Runtime: " + ClockText(RuntimeParts(st.runtimeSeconds))
    else ""
  }

  /** Under a minute only seconds are shown. */
  lemma ClockTextUnderMinute(total: nat)
    requires total < 60
    ensures ClockText(RuntimeParts(total)) == Text.NatToString(total) + "s"
  {
    assert RuntimeParts(total) == Clock(0, 0, total);
  }

  /** Under an hour the hours are left out. */
  lemma ClockTextUnderHour(total: nat)
    requires 60 <= total < 3600
    ensures ClockText(RuntimeParts(total))
              == Text.NatToString(total / 60) + "m " + Text.NatToString(total % 60) + "s"
  {
    assert total % 3600 == total;
    assert RuntimeParts(total) == Clock(0, total / 60, total % 60);
  }

  /** From an hour on, hours, minutes and seconds are all shown. */
  lemma ClockTextHours(total: nat)
    requires total >= 3600
    ensures ClockText(RuntimeParts(total))
              == Text.NatToString(total / 3600) + "h " + Text.NatToString(total % 3600 / 60) + "m "
                 + Text.NatToString(total % 60) + "s"
  {
    assert total % 3600 % 60 == total % 60;
    assert RuntimeParts(total) == Clock(total / 3600, total % 3600 / 60, total % 60);
  }

  /** The two editions' limits on a shown file name and how much of its end survives shortening. */
  const TkFileLimit: nat := 30
  const TkFileKeep: nat := 27
  const FletFileLimit: nat := 35
  const FletFileKeep: nat := 32

  /**
   * The file name part of the file line: "None" for an empty one, and a name
   * longer than `limit` replaced by "..." and its last `keep` characters.
   */
  function ShownFile(currentFile: string, limit: nat, keep: nat): (r: string)
    requires keep + 3 == limit && limit >= 4
    ensures currentFile == [] ==> r == "None"
    ensures currentFile != [] && |currentFile| <= limit ==> r == currentFile
    ensures |r| <= limit
    ensures |currentFile| > limit ==>
              |r| == limit && r[..3] == "..." && r[3..] == currentFile[|currentFile| - keep..]
  {
    var f := if currentFile != [] then currentFile else "None";
    if |f| > limit then "..." + f[|f| - keep..] else f
  }

  /** Whatever its length, a name's last characters (up to `keep` of them) end the shown text. */
  lemma ShownFileKeepsEnd(currentFile: string, limit: nat, keep: nat)
    requires keep + 3 == limit && limit >= 4 && currentFile != []
    ensures var r := ShownFile(currentFile, limit, keep);
            var n := if |currentFile| < keep then |currentFile| else keep;
            r[|r| - n..] == currentFile[|currentFile| - n..]
  {
  }

  function FileLine(currentFile: string, limit: nat, keep: nat): string
    requires keep + 3 == limit && limit >= 4
  {
    "File: " + ShownFile(currentFile, limit, keep)
  }

  /** The character line. */
  function CharacterText(st: InstanceStatus): (r: string)
    ensures st.reachable && st.characterName != "Unknown" ==> r == st.characterName + " @ " + st.worldName
    ensures !st.reachable || st.characterName == "Unknown" ==> r == "Character: Unknown"
  {
    if st.reachable && st.characterName != "Unknown" then st.characterName + " @ " + st.worldName
    else "Character: Unknown"
  }

  datatype Buttons = Buttons(canRun: bool, canResume: bool, canStop: bool)

  predicate Startable(st: InstanceStatus) {
    st.state == "idle" || st.state == "stopped"
  }

  /** Which of Run, Resume and Stop are enabled. */
  function ButtonStates(st: InstanceStatus): (b: Buttons)
    ensures b.canRun <==> st.reachable && Startable(st)
    ensures b.canResume <==> b.canRun && st.hasIncompleteOrders
    ensures b.canStop <==> st.reachable && st.isExecuting
  {
    Buttons(st.reachable && Startable(st),
            st.reachable && Startable(st) && st.hasIncompleteOrders,
            st.reachable && st.isExecuting)
  }

  /** Nothing can be pressed on an unreachable panel, and an agent reporting no execution cannot be stopped. */
  lemma ButtonsOfUnreachable(st: InstanceStatus)
    ensures !st.reachable ==> ButtonStates(st) == Buttons(false, false, false)
    ensures st.reachable && !st.isExecuting ==> !ButtonStates(st).canStop
    ensures GetStatus(ConnectionError).reachable == false
    ensures ButtonStates(GetStatus(Timeout)) == Buttons(false, false, false)
  {
  }

  /** The Tk panel's "advanced run" button is enabled exactly when Run is. */
  function TkCanAdvanced(st: InstanceStatus): (r: bool)
    ensures r == ButtonStates(st).canRun
  {
    st.reachable && (st.state == "idle" || st.state == "stopped")
  }

  datatype PanelView = PanelView(
    stateText: string,
    characterText: string,
    runtimeText: string,
    fileText: string,
    buttons: Buttons)

  function View(st: InstanceStatus, limit: nat, keep: nat): PanelView
    requires keep + 3 == limit && limit >= 4
  {
    PanelView(StateText(st), CharacterText(st), RuntimeText(st),
              FileLine(st.currentFile, limit, keep), ButtonStates(st))
  }

  /** `InstancePanel.update_status` of the Tk edition. */
  function TkView(st: InstanceStatus): (v: PanelView)
    ensures |v.fileText| <= |"File: "| + TkFileLimit
  {
    View(st, TkFileLimit, TkFileKeep)
  }

  /** `InstancePanel.update_status` of the Flet edition. */
  function FletView(st: InstanceStatus): (v: PanelView)
    ensures |v.fileText| <= |"File: "| + FletFileLimit
  {
    View(st, FletFileLimit, FletFileKeep)
  }

  /** The editions differ in the file line only, and only for names longer than 30 characters. */
  lemma EditionsDifferOnlyInFileLine(st: InstanceStatus)
    ensures TkView(st).(fileText := FletView(st).fileText) == FletView(st)
    ensures |st.currentFile| <= TkFileLimit ==> TkView(st) == FletView(st)
    ensures TkFileLimit < |st.currentFile| <= FletFileLimit ==>
              FletView(st).fileText == "File: " + st.currentFile && TkView(st) != FletView(st)
  {
    if TkFileLimit < |st.currentFile| <= FletFileLimit {
      var tk := ShownFile(st.currentFile, TkFileLimit, TkFileKeep);
      assert tk[..3] == "...";
      assert |tk| == 30;
      assert ("File: " + tk)[6..] == tk;
      assert TkView(st).fileText != FletView(st).fileText;
    }
  }
}

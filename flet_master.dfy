/**
 * The Flet edition's `WranglerMasterApp`: an instance list and a default
 * work-order path, with add, remove and the three bulk actions. This edition
 * has no timers or schedules in operation; its unreachable instances count
 * as skipped by "resume all".
 */
module FletMaster {
  import opened Wrappers
  import opened RunConfig
  import opened Client
  import opened Dialogs
  import opened Tallies
  import Supervisor

  class FletApp {
    var instances: seq<WranglerInstance>
    var defaultJsonPath: string

    constructor ()
      ensures instances == [] && defaultJsonPath == []
    {
      instances := [];
      defaultJsonPath := [];
    }

    /**
     * `_show_add_dialog`'s add handler: append the new instance unless the
     * port does not parse; empty names and hosts and any port number are
     * accepted.
     */
    method AddInstance(nameEntry: string, hostEntry: string, port: Option<int>) returns (added: bool)
      modifies this`instances
      ensures added <==> port.Some?
      ensures !added ==> instances == old(instances)
      ensures added ==> instances == old(instances) + [FletNewInstance(nameEntry, hostEntry, port).value]
    {
      var r := FletNewInstance(nameEntry, hostEntry, port);
      if r.None? {
        return false;
      }
      instances := instances + [r.value];
      added := true;
    }

    /**
     * `_on_remove` once answered "Yes": remove the first equal instance.
     * Returns false when there is none, where `list.remove` would raise.
     */
    method Remove(inst: WranglerInstance) returns (removed: bool)
      modifies this`instances
      ensures removed <==> inst in old(instances)
      ensures instances == Supervisor.RemoveFirst(old(instances), inst)
    {
      var i := 0;
      while i < |instances| && instances[i] != inst
        invariant 0 <= i <= |instances|
        invariant inst !in instances[..i]
      {
        i := i + 1;
      }
      if i < |instances| {
        Supervisor.RemoveFirstAt(instances, inst, i);
        instances := instances[..i] + instances[i + 1..];
        removed := true;
      } else {
        assert instances[..i] == instances;
        removed := false;
      }
    }

    /**
     * `_start_all` and `_do_start_all`: with no default work order the file
     * picker's choice is used (`picked`, empty when cancelled); an empty path
     * sends nothing, any other becomes the default and is run on every
     * enabled instance.
     */
    method StartAll(picked: string, ok: nat -> bool) returns (t: Tally, contacted: seq<nat>)
      modifies this`defaultJsonPath
      ensures var path := if old(defaultJsonPath) != [] then old(defaultJsonPath) else picked;
              && defaultJsonPath == path
              && (path == [] ==> t == Tally(0, 0) && contacted == [])
              && (path != [] ==> contacted == EnabledBelow(instances, |instances|))
      ensures t.successes == CountWhere(contacted, ok) && t.successes + t.failures == |contacted|
    {
      var path := if defaultJsonPath != [] then defaultJsonPath else picked;
      t, contacted := DoStartAll(path, ok);
    }

    /** `_do_start_all`. */
    method DoStartAll(jsonPath: string, ok: nat -> bool) returns (t: Tally, contacted: seq<nat>)
      modifies this`defaultJsonPath
      ensures jsonPath == [] ==> defaultJsonPath == old(defaultJsonPath) && t == Tally(0, 0) && contacted == []
      ensures jsonPath != [] ==> defaultJsonPath == jsonPath && contacted == EnabledBelow(instances, |instances|)
      ensures t.successes == CountWhere(contacted, ok) && t.successes + t.failures == |contacted|
    {
      if jsonPath == [] {
        return Tally(0, 0), [];
      }
      defaultJsonPath := jsonPath;
      t, contacted := RequestAll(instances, ok);
    }

    /** `_stop_all`: ask every enabled instance to stop gently. */
    method StopAll(ok: nat -> bool) returns (t: Tally, contacted: seq<nat>)
      ensures contacted == EnabledBelow(instances, |instances|)
      ensures t.successes == CountWhere(contacted, ok) && t.successes + t.failures == |contacted|
    {
      t, contacted := RequestAll(instances, ok);
    }

    /** `_resume_all`: unreachable instances count as skipped. */
    method ResumeAll(fetch: nat -> FetchOutcome, ok: nat -> bool)
      returns (t: ResumeTally, probed: seq<nat>, resumed: seq<nat>)
      ensures probed == EnabledBelow(instances, |instances|)
      ensures resumed == EligibleAmong(probed, fetch)
      ensures t.successes + t.failures + t.skipped == |probed|
      ensures t.successes == CountWhere(resumed, ok) && t.successes + t.failures == |resumed|
      ensures t.skipped == |probed| - |resumed|
    {
      t, probed, resumed := Tallies.ResumeAll(Flet, instances, fetch, ok);
      ResumeTallyFacts(probed, fetch, ok);
    }
  }
}

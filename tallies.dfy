/**
 * The bulk actions "start all", "stop all" and "resume all": one pass over
 * the instance list that contacts each enabled instance once and counts the
 * outcomes. The outcome of each request is an input, indexed by the
 * instance's position in the list.
 */
module Tallies {
  import opened RunConfig
  import opened Client

  /** The positions of the enabled instances among the first `n`, in list order. */
  function EnabledBelow(s: seq<WranglerInstance>, n: nat): (r: seq<nat>)
    requires n <= |s|
    ensures |r| <= n
  {
    if n == 0 then []
    else EnabledBelow(s, n - 1) + (if s[n - 1].enabled then [n - 1] else [])
  }

  /** Exactly the enabled positions are listed, each once, in increasing order. */
  lemma {:induction false} EnabledBelowMembers(s: seq<WranglerInstance>, n: nat)
    requires n <= |s|
    ensures forall i: nat :: i in EnabledBelow(s, n) <==> i < n && s[i].enabled
    ensures forall a, b :: 0 <= a < b < |EnabledBelow(s, n)| ==>
              EnabledBelow(s, n)[a] < EnabledBelow(s, n)[b]
  {
    if n > 0 {
      EnabledBelowMembers(s, n - 1);
      var init := EnabledBelow(s, n - 1);
      assert forall a :: 0 <= a < |init| ==> init[a] < n - 1 by {
        forall a | 0 <= a < |init| ensures init[a] < n - 1 {
          assert init[a] in init;
        }
      }
    }
  }

  /** How many of the listed positions `ok` holds for. */
  function CountWhere(xs: seq<nat>, ok: nat -> bool): (c: nat)
    ensures c <= |xs|
  {
    if xs == [] then 0
    else CountWhere(xs[..|xs| - 1], ok) + (if ok(xs[|xs| - 1]) then 1 else 0)
  }

  datatype Tally = Tally(successes: nat, failures: nat)

  /**
   * `do_start_all` / `do_stop_all` (both editions): send the request to each
   * enabled instance in turn; `ok(i)` is whether the request to position `i`
   * reported success.
   */
  method RequestAll(s: seq<WranglerInstance>, ok: nat -> bool) returns (t: Tally, contacted: seq<nat>)
    ensures contacted == EnabledBelow(s, |s|)
    ensures t.successes == CountWhere(contacted, ok)
    ensures t.successes + t.failures == |contacted|
  {
    t := Tally(0, 0);
    contacted := [];
    var i := 0;
    while i < |s|
      invariant i <= |s|
      invariant contacted == EnabledBelow(s, i)
      invariant t.successes == CountWhere(contacted, ok)
      invariant t.successes + t.failures == |contacted|
    {
      if s[i].enabled {
        var success := ok(i);
        if success {
          t := t.(successes := t.successes + 1);
        } else {
          t := t.(failures := t.failures + 1);
        }
        contacted := contacted + [i];
        assert contacted[..|contacted| - 1] == EnabledBelow(s, i);
      }
      i := i + 1;
    }
  }

  /** Disabled instances are never contacted, and every enabled one is. */
  lemma RequestAllCoverage(s: seq<WranglerInstance>, i: nat)
    requires i < |s|
    ensures i in EnabledBelow(s, |s|) <==> s[i].enabled
  {
    EnabledBelowMembers(s, |s|);
  }

  /** So `successes + failures` is the number of enabled instances: each is counted once. */
  lemma EnabledCount(s: seq<WranglerInstance>)
    ensures |EnabledBelow(s, |s|)| == |set j | 0 <= j < |s| && s[j].enabled|
  {
    EnabledBelowMembers(s, |s|);
    var e := EnabledBelow(s, |s|);
    var want := set j | 0 <= j < |s| && s[j].enabled;
    assert Elements(e) == want;
    DistinctCard(e);
  }

  /** The set of a list's elements. */
  function Elements(xs: seq<nat>): set<nat> {
    set j | j in xs
  }

  /** A strictly increasing list has as many elements as its set. */
  lemma {:induction false} DistinctCard(xs: seq<nat>)
    requires forall a, b :: 0 <= a < b < |xs| ==> xs[a] < xs[b]
    ensures |Elements(xs)| == |xs|
  {
    if xs != [] {
      var init := xs[..|xs| - 1];
      var last := xs[|xs| - 1];
      DistinctCard(init);
      assert last !in Elements(init) by {
        assert forall a :: 0 <= a < |init| ==> init[a] < last;
      }
      assert xs == init + [last];
      assert Elements(xs) == Elements(init) + {last};
    }
  }

  /** The two editions that count "resume all" differently. */
  datatype Edition = Tk | Flet

  datatype Outcome = Succeeded | Failed | Skipped

  /** Whether "resume all" sends a resume request to an instance with this status. */
  predicate ResumeEligible(st: InstanceStatus) {
    st.reachable && st.hasIncompleteOrders && !st.isExecuting
  }

  /**
   * How one enabled instance is counted. The Tk edition counts an
   * unreachable instance as failed, the Flet edition as skipped; otherwise
   * an executing instance or one with no incomplete orders is skipped, and
   * the resume request decides the rest.
   */
  function ResumeOutcome(ed: Edition, st: InstanceStatus, resumed: bool): (o: Outcome)
    ensures ResumeEligible(st) ==> o == (if resumed then Succeeded else Failed)
    ensures !ResumeEligible(st) && st.reachable ==> o == Skipped
  {
    match ed
    case Tk =>
      if !st.reachable then Failed
      else if !st.hasIncompleteOrders then Skipped
      else if st.isExecuting then Skipped
      else if resumed then Succeeded else Failed
    case Flet =>
      if !st.reachable || st.isExecuting then Skipped
      else if !st.hasIncompleteOrders then Skipped
      else if resumed then Succeeded else Failed
  }

  /** The only difference between the editions is the unreachable instance. */
  lemma ResumeOutcomeEditions(st: InstanceStatus, resumed: bool)
    ensures !st.reachable ==> ResumeOutcome(Tk, st, resumed) == Failed
    ensures !st.reachable ==> ResumeOutcome(Flet, st, resumed) == Skipped
    ensures st.reachable ==> ResumeOutcome(Tk, st, resumed) == ResumeOutcome(Flet, st, resumed)
  {
  }

  datatype ResumeTally = ResumeTally(successes: nat, failures: nat, skipped: nat)

  function Add(t: ResumeTally, o: Outcome): ResumeTally {
    match o
    case Succeeded => t.(successes := t.successes + 1)
    case Failed => t.(failures := t.failures + 1)
    case Skipped => t.(skipped := t.skipped + 1)
  }

  /** The tally of "resume all" over the probed positions. */
  function ResumeTallyOf(ed: Edition, probed: seq<nat>, fetch: nat -> FetchOutcome, ok: nat -> bool)
    : ResumeTally
  {
    if probed == [] then ResumeTally(0, 0, 0)
    else
      var i := probed[|probed| - 1];
      Add(ResumeTallyOf(ed, probed[..|probed| - 1], fetch, ok), ResumeOutcome(ed, GetStatus(fetch(i)), ok(i)))
  }

  /** The positions among `probed` that a resume request is sent to. */
  function EligibleAmong(probed: seq<nat>, fetch: nat -> FetchOutcome): (r: seq<nat>)
    ensures |r| <= |probed|
    ensures forall i :: i in r <==> i in probed && ResumeEligible(GetStatus(fetch(i)))
  {
    if probed == [] then []
    else
      var i := probed[|probed| - 1];
      EligibleAmong(probed[..|probed| - 1], fetch) + (if ResumeEligible(GetStatus(fetch(i))) then [i] else [])
  }

  function CountUnreachable(probed: seq<nat>, fetch: nat -> FetchOutcome): nat {
    if probed == [] then 0
    else CountUnreachable(probed[..|probed| - 1], fetch)
           + (if GetStatus(fetch(probed[|probed| - 1])).reachable then 0 else 1)
  }

  /**
   * Every probed instance lands in exactly one bucket; the successes are the
   * eligible instances whose resume succeeded, in both editions; and the
   * editions differ by the unreachable instances moving from "failed" to
   * "skipped".
   */
  lemma {:induction false} ResumeTallyFacts(probed: seq<nat>, fetch: nat -> FetchOutcome, ok: nat -> bool)
    ensures var tk := ResumeTallyOf(Tk, probed, fetch, ok);
            var fl := ResumeTallyOf(Flet, probed, fetch, ok);
            var u := CountUnreachable(probed, fetch);
            && tk.successes + tk.failures + tk.skipped == |probed|
            && fl.successes + fl.failures + fl.skipped == |probed|
            && tk.successes == fl.successes == CountWhere(EligibleAmong(probed, fetch), ok)
            && tk.failures == fl.failures + u
            && fl.skipped == tk.skipped + u
            && fl.successes + fl.failures == |EligibleAmong(probed, fetch)|
  {
    if probed != [] {
      var init := probed[..|probed| - 1];
      ResumeTallyFacts(init, fetch, ok);
      var i := probed[|probed| - 1];
      var e := EligibleAmong(probed, fetch);
      if ResumeEligible(GetStatus(fetch(i))) {
        assert e == EligibleAmong(init, fetch) + [i];
        assert e[..|e| - 1] == EligibleAmong(init, fetch) && e[|e| - 1] == i;
      } else {
        assert e == EligibleAmong(init, fetch);
      }
    }
  }

  /**
   * `do_resume_all`: fetch the status of each enabled instance, send a resume
   * to the eligible ones and count every enabled instance into one bucket.
   */
  method ResumeAll(ed: Edition, s: seq<WranglerInstance>, fetch: nat -> FetchOutcome, ok: nat -> bool)
    returns (t: ResumeTally, probed: seq<nat>, resumed: seq<nat>)
    ensures probed == EnabledBelow(s, |s|)
    ensures resumed == EligibleAmong(probed, fetch)
    ensures t == ResumeTallyOf(ed, probed, fetch, ok)
  {
    t := ResumeTally(0, 0, 0);
    probed := [];
    resumed := [];
    var i := 0;
    while i < |s|
      invariant i <= |s|
      invariant probed == EnabledBelow(s, i)
      invariant resumed == EligibleAmong(probed, fetch)
      invariant t == ResumeTallyOf(ed, probed, fetch, ok)
    {
      if s[i].enabled {
        var st := GetStatus(fetch(i));
        var success := false;
        if ResumeEligible(st) {
          success := ok(i);
          resumed := resumed + [i];
        }
        t := Add(t, ResumeOutcome(ed, st, success));
        probed := probed + [i];
        assert probed[..|probed| - 1] == EnabledBelow(s, i);
      }
      i := i + 1;
    }
  }
}

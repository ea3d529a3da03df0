/** Runs that go on from some state: how they are put together, and what does not happen in them. */
module Continuations {
  import opened Protocol
  import opened Recoveries
  import opened Mildness
  import opened Hiding

  // ---- recoveries that are called for ----

  predicate Fresh(s: Sys, k: nat)
    requires Wf(s) && k < |s.parts|
  {
    s.pst[k] == P_TEMP
  }

  /** A recovery begins only when somebody has just been connected, as the coordinator waits for that. */
  predicate Prompted(s: Sys, run: seq<Action>)
    requires Wf(s) && CanRun(s, run)
    decreases |run|
  {
    run == [] || (
      && (run[0].StartRecovery? ==> exists k {:trigger Fresh(s, k)} :: 0 <= k < |s.parts| && Fresh(s, k))
      && Prompted(Step(s, run[0]), run[1..]))
  }

  /** The run leads from `s` to `t`, and its recoveries are called for. */
  predicate Leads(s: Sys, run: seq<Action>, t: Sys) {
    Wf(s) && CanRun(s, run) && Run(s, run) == t && Prompted(s, run)
  }

  lemma {:induction false} Then(s: Sys, run: seq<Action>, t: Sys, more: seq<Action>, u: Sys)
    requires Leads(s, run, t) && Leads(t, more, u)
    ensures Leads(s, run + more, u)
    decreases |run|
  {
    RunJoin(s, run, more);
    if run == [] {
      assert run + more == more;
    } else {
      Then(Step(s, run[0]), run[1..], t, more, u);
      assert (run + more)[1..] == run[1..] + more;
    }
  }

  lemma First(s: Sys, a: Action, run: seq<Action>, t: Sys)
    requires Wf(s) && Enabled(s, a) && Leads(Step(s, a), run, t)
    requires a.StartRecovery? ==> exists k {:trigger Fresh(s, k)} :: 0 <= k < |s.parts| && Fresh(s, k)
    ensures Leads(s, [a] + run, t)
  {
    RunFirst(s, a, run);
    assert ([a] + run)[1..] == run;
  }

  /** Where no recovery begins there is nothing to call for it. */
  lemma {:induction false} NoneBegins(s: Sys, run: seq<Action>)
    requires Wf(s) && CanRun(s, run) && forall k {:trigger run[k]} :: 0 <= k < |run| ==> !run[k].StartRecovery?
    ensures Leads(s, run, Run(s, run))
    decreases |run|
  {
    if run != [] {
      forall k {:trigger run[1..][k]} | 0 <= k < |run| - 1 ensures !run[1..][k].StartRecovery? {
        assert run[1..][k] == run[k + 1];
      }
      NoneBegins(Step(s, run[0]), run[1..]);
    }
  }

  /** The same calls for a recovery whether participant `i` waits or is blank. */
  lemma {:induction false} HiddenPrompted(s: Sys, i: nat, run: seq<Action>)
    requires Wf(s) && i < |s.parts| && Aside(s, i) && CanRun(Blank(s, i), run) && Prompted(Blank(s, i), run)
    requires forall k {:trigger run[k]} :: 0 <= k < |run| ==> Passes(run[k], i)
    ensures CanRun(s, run) && Prompted(s, run)
    decreases |run|
  {
    HiddenRun(s, i, run);
    if run != [] {
      var b := Blank(s, i);
      HiddenFirst(s, i, run[0]);
      forall k {:trigger run[1..][k]} | 0 <= k < |run| - 1 ensures Passes(run[1..][k], i) {
        assert run[1..][k] == run[k + 1];
      }
      HiddenPrompted(Step(s, run[0]), i, run[1..]);
      if run[0].StartRecovery? {
        var k :| 0 <= k < |b.parts| && Fresh(b, k);
        assert Fresh(s, k);
      }
    }
  }

  // ---- what does not go wrong ----

  /** No crash, no restart, and every exchange goes well. */
  predicate Plain(run: seq<Action>) {
    forall k {:trigger run[k]} :: 0 <= k < |run| ==> PlainAction(run[k])
  }

  predicate PlainAction(a: Action) {
    !a.Crash? && a != Restart && (a.Exchange? ==> a.fate == Heard)
  }

  /** No link is set up but that of participant `j`. */
  predicate Calls(run: seq<Action>, j: nat) {
    forall k {:trigger run[k]} :: 0 <= k < |run| ==> run[k].Reconnect? ==> run[k].id == j
  }

  lemma PlainRest(run: seq<Action>)
    requires Plain(run) && run != []
    ensures Plain(run[1..])
  {
    forall k {:trigger run[1..][k]} | 0 <= k < |run| - 1 ensures PlainAction(run[1..][k]) {
      assert run[1..][k] == run[k + 1];
    }
  }

  lemma PlainBoth(a: seq<Action>, b: seq<Action>)
    requires Plain(a) && Plain(b)
    ensures Plain(a + b)
    ensures forall j: nat {:trigger Calls(a + b, j)} :: Calls(a, j) && Calls(b, j) ==> Calls(a + b, j)
  {
    forall k {:trigger (a + b)[k]} | 0 <= k < |a + b| ensures PlainAction((a + b)[k]) {
      if k < |a| { assert (a + b)[k] == a[k]; } else { assert (a + b)[k] == b[k - |a|]; }
    }
  }

  /** What follows an action when nothing goes wrong. */
  lemma PlainSmooth(a: Action, run: seq<Action>)
    requires PlainAction(a) && Smooth(run)
    ensures Plain([a] + run)
    ensures forall j: nat {:trigger Calls([a] + run, j)} :: (a.Reconnect? ==> a.id == j) ==> Calls([a] + run, j)
  {
  }

  lemma MildMore(run: seq<Action>, a: Action)
    requires Mild(run) && MildAction(a)
    ensures Mild(run + [a])
  {
  }

  lemma MildFirst(a: Action, run: seq<Action>)
    requires MildAction(a) && Mild(run)
    ensures Mild([a] + run)
  {
  }

  lemma MildBoth(a: seq<Action>, b: seq<Action>)
    requires Mild(a) && (Mild(b) || Plain(b))
    ensures Mild(a + b)
  {
    forall k {:trigger (a + b)[k]} | 0 <= k < |a + b| ensures MildAction((a + b)[k]) {
      if k < |a| { assert (a + b)[k] == a[k]; } else { assert (a + b)[k] == b[k - |a|]; }
    }
  }
}

/** A participant that is ahead of the coordinator can be left behind: others commit other transactions under the
    same ids, and then it passes for one that is up to date.  So the logs stay in agreement exactly as long as
    nobody is ahead. */
module Conflicts {
  import opened Replica
  import opened Options
  import opened Protocol
  import opened Invariant
  import opened Agreement
  import opened Recoveries
  import opened Durability
  import opened Progress
  import opened Mildness
  import opened Hiding
  import opened Continuations

  /** Two participants work, pass for up to date, and hold different transactions. */
  predicate Conflicting(s: Sys, i: nat, j: nat)
    requires Wf(s) && i < |s.parts| && j < |s.parts|
  {
    && s.ph.Idle? && s.serving && Live(s, i) && Live(s, j)
    && s.parts[i].txid == s.parts[j].txid == s.txid && s.parts[i].log != s.parts[j].log
  }

  // ---- runs in which nobody is lost ----

  lemma {:induction false} RunGrows(s: Sys, W: Master, run: seq<Action>, i: nat)
    requires Inv(s, W) && CanRun(s, run) && i < |s.parts| && Linked(s, i) && Plain(run)
    ensures Grows(s.parts[i], Run(s, run).parts[i])
    decreases |run|
  {
    if run != [] {
      assert PlainAction(run[0]);
      StepStays(s, W, run[0], i);
      var W2 := StepInv(s, W, run[0]);
      var s2 := Step(s, run[0]);
      PlainRest(run);
      RunGrows(s2, W2, run[1..], i);
      GrowsOn(s.parts[i], s2.parts[i], Run(s, run).parts[i]);
    }
  }

  lemma GrowsOn(p: Part, q: Part, r: Part)
    requires Grows(p, q) && Grows(q, r)
    ensures Grows(p, r)
  {
  }

  // ---- left behind ----

  predicate Waits(s: Sys, k: nat)
    requires Wf(s) && k < |s.parts|
  {
    s.pst[k] == P_WAITING
  }

  /** Between operations everybody waits, participant `i` is ahead of the coordinator, and nobody else is. */
  ghost predicate Left(s: Sys, i: nat)
    requires Wf(s) && i < |s.parts|
  {
    && s.ph.Idle? && !s.restarted && s.parts[i].txid > s.txid
    && (forall k {:trigger Waits(s, k)} :: 0 <= k < |s.parts| ==> Waits(s, k))
    && (forall k {:trigger s.parts[k]} :: 0 <= k < |s.parts| && k != i ==> s.parts[k].txid <= s.txid)
  }

  /** Participant `j` works, and nobody else does. */
  ghost predicate Solo(s: Sys, j: nat)
    requires Wf(s) && j < |s.parts|
  {
    && s.ph.Idle? && s.serving && !s.restarted && Live(s, j)
    && (forall k {:trigger Waits(s, k)} :: 0 <= k < |s.parts| && k != j ==> Waits(s, k))
  }

  lemma BlankInv(s: Sys, W: Master, i: nat)
    requires Inv(s, W) && i < |s.parts| && Left(s, i)
    ensures Inv(Blank(s, i), None)
  {
    var b := Blank(s, i);
    WithoutMaster(s, W);
    forall k | 0 <= k < |s.parts| ensures PartInv(b, None, k) && PhasePart(b, k) {
      assert PartInv(s, None, k) && Waits(s, k);
    }
  }

  lemma LongestIs(s: Sys)
    requires Wf(s) && forall k {:trigger s.parts[k]} :: 0 <= k < |s.parts| && Reached(s, k) ==>
        s.parts[k].txid <= s.txid
    ensures Longest(s, |s.parts|) == s.txid
  {
  }

  /** A participant that waits is connected, and a recovery brings it to the coordinator's id, as well as whoever
      else is reached. */
  lemma Connects(s: Sys, W: Master, j: nat) returns (run: seq<Action>, t: Sys, W2: Master)
    requires Inv(s, W) && s.ph.Idle? && j < |s.parts| && Waits(s, j)
    requires var s1 := Step(s, Reconnect(j)); AllLinked(s1) && Longest(s1, |s.parts|) == s.txid
    ensures Plain(run) && Calls(run, j) && Leads(s, run, t) && Inv(t, W2) && W2.Some? == W.Some?
    ensures t.ph.Idle? && t.serving && !t.restarted && |t.parts| == |s.parts|
    ensures AllAt(Step(s, Reconnect(j)), s.txid, t)
  {
    var a, b := Reconnect(j), StartRecovery(s.txid - 1);
    ReconnectInv(s, W, j);
    var more;
    more, t, W2 := Recovers(Step(s, a), W);
    PlainSmooth(b, more);
    NoneBegins(Step(Step(s, a), b), more);
    assert Fresh(Step(s, a), j) && ([b] + more)[1..] == more;
    First(Step(s, a), b, more, t);
    First(s, a, [b] + more, t);
    run := [a] + ([b] + more);
    PlainBoth([a], [b] + more);
  }

  /** With nobody ahead, one participant is connected and brought to the coordinator's id. */
  lemma Joins(s: Sys, W: Master, j: nat) returns (run: seq<Action>, t: Sys, W2: Master)
    requires Inv(s, W) && s.ph.Idle? && j < |s.parts| && s.parts[j].txid <= s.txid
    requires forall k {:trigger Waits(s, k)} :: 0 <= k < |s.parts| ==> Waits(s, k)
    ensures Plain(run) && Leads(s, run, t) && Inv(t, W2) && W2.Some? == W.Some?
    ensures |t.parts| == |s.parts| && Solo(t, j) && t.txid == s.txid && Calls(run, j)
  {
    assert Waits(s, j);
    var s1 := Step(s, Reconnect(j));
    forall k | 0 <= k < |s.parts| ensures Reached(s1, k) ==> k == j && ReachedHere(s1, k) {
      assert Waits(s, k);
    }
    LongestIs(s1);
    run, t, W2 := Connects(s, W, j);
    forall k | 0 <= k < |t.parts| ensures k != j ==> Waits(t, k) {
      assert AtTop(s1, s.txid, t, k);
    }
    assert AtTop(s1, s.txid, t, j);
  }

  // ---- other transactions under the same ids ----

  /** The one participant that works commits `cmd`, again and again, up to transaction id `m`. */
  lemma {:induction false} Climb(s: Sys, W: Master, j: nat, cmd: seq<string>, m: nat)
      returns (run: seq<Action>, t: Sys, W2: Master)
    requires Inv(s, W) && W.None? && j < |s.parts| && Solo(s, j) && IsWrite(cmd) && Accepted(Command(cmd)) && s.txid < m
    ensures Plain(run) && Leads(s, run, t) && Inv(t, W2) && W2.None?
    ensures |t.parts| == |s.parts| && Solo(t, j) && t.txid == m && Calls(run, j)
    ensures Holds(t, j, s.txid, Log(s.txid, LOG_COMMIT, Command(cmd)))
    decreases m - s.txid
  {
    var e := Log(s.txid, LOG_COMMIT, Command(cmd));
    run, t, W2 := Commits(s, W, j, cmd);
    run := [StartUpdate(cmd)] + run;
    PlainSmooth(StartUpdate(cmd), run[1..]);
    NoneBegins(s, run);
    forall k | 0 <= k < |t.parts| && k != j ensures Waits(t, k) {
      assert Waits(s, k);
    }
    if t.txid < m {
      var more, u, W3 := Climb(t, W2, j, cmd, m);
      Then(s, run, t, more, u);
      PlainBoth(run, more);
      RunGrows(t, W2, more, j);
      run, t, W2 := run + more, u, W3;
    }
  }

  /** With the one left behind blank, participant `j` overtakes it. */
  lemma Outgrows(s: Sys, W: Master, i: nat, j: nat, cmd: seq<string>) returns (run: seq<Action>, t: Sys)
    requires Inv(s, W) && i < |s.parts| && Left(s, i) && j < |s.parts| && j != i
    requires IsWrite(cmd) && Accepted(Command(cmd))
    ensures Plain(run) && Calls(run, j) && Leads(Blank(s, i), run, t)
    ensures |t.parts| == |s.parts| && Solo(t, j) && t.txid == s.parts[i].txid
    ensures Holds(t, j, s.txid, Log(s.txid, LOG_COMMIT, Command(cmd)))
  {
    var b := Blank(s, i);
    BlankInv(s, W, i);
    forall k | 0 <= k < |b.parts| ensures Waits(b, k) {
      assert Waits(s, k);
    }
    var join, t1, W1 := Joins(b, None, j);
    var climb, t2, _ := Climb(t1, W1, j, cmd, s.parts[i].txid);
    run := join + climb;
    t := t2;
    Then(b, join, t1, climb, t);
    PlainBoth(join, climb);
  }

  /** Participant `j` overtakes the one left behind, with `cmd` as the first transaction the coordinator lacked. */
  lemma Overtakes(s: Sys, W: Master, i: nat, j: nat, cmd: seq<string>) returns (run: seq<Action>, t: Sys, W2: Master)
    requires Inv(s, W) && i < |s.parts| && Left(s, i) && j < |s.parts| && j != i
    requires IsWrite(cmd) && Accepted(Command(cmd))
    ensures Plain(run) && Leads(s, run, t) && Inv(t, W2)
    ensures |t.parts| == |s.parts| && Solo(t, j) && t.parts[i] == s.parts[i] && t.txid == s.parts[i].txid
    ensures Holds(t, j, s.txid, Log(s.txid, LOG_COMMIT, Command(cmd)))
  {
    var t';
    run, t' := Outgrows(s, W, i, j, cmd);
    assert Waits(s, i);
    forall k {:trigger run[k]} | 0 <= k < |run| ensures Passes(run[k], i) {
      assert PlainAction(run[k]);
    }
    HiddenRun(s, i, run);
    HiddenPrompted(s, i, run);
    t := Run(s, run);
    W2 := RunInv(s, W, run);
    SoloUnseen(t, i, j);
  }

  lemma SoloUnseen(t: Sys, i: nat, j: nat)
    requires Wf(t) && i < |t.parts| && j < |t.parts| && Solo(Blank(t, i), j)
    ensures Solo(t, j)
  {
    forall k | 0 <= k < |t.parts| && k != j ensures Waits(t, k) {
      assert Waits(Blank(t, i), k);
    }
  }

  /** The one left behind is connected again, and equal ids make it pass for up to date. */
  lemma Returns(s: Sys, W: Master, i: nat, j: nat) returns (run: seq<Action>, t: Sys)
    requires Inv(s, W) && i < |s.parts| && j < |s.parts| && j != i && Solo(s, j) && s.parts[i].txid == s.txid
    ensures Plain(run) && Leads(s, run, t)
    ensures t.ph.Idle? && t.serving && Live(t, i) && Live(t, j) && t.parts[i].txid == t.parts[j].txid == t.txid
    ensures Grows(s.parts[i], t.parts[i]) && Grows(s.parts[j], t.parts[j])
  {
    assert Waits(s, i) && PhasePart(s, j);
    var s1 := Step(s, Reconnect(i));
    forall k | 0 <= k < |s.parts| ensures Reached(s1, k) ==> (k == i || k == j) && ReachedHere(s1, k) {
      if k != j { assert Waits(s, k); }
    }
    LongestIs(s1);
    var W2;
    run, t, W2 := Connects(s, W, i);
    assert AtTop(s1, s.txid, t, i) && AtTop(s1, s.txid, t, j);
    RunGrows(s, W, run, i);
    RunGrows(s, W, run, j);
  }

  const A := ["SET", "k", "a"]
  const B := ["SET", "k", "b"]

  /** A command that is not the one participant `i` has as transaction `t`. */
  function Other(p: Part, t: nat): (cmd: seq<string>)
    ensures t in p.log ==> p.log[t].event != Command(cmd)
    ensures IsWrite(cmd) && Accepted(Command(cmd))
  {
    assert A[2] != B[2] && Initial(A) == Initial(B) == 'S';
    if t in p.log && p.log[t].event == Command(A) then B else A
  }

  /** A participant left behind comes to work beside one that has executed something else, without a single
      exchange failing. */
  lemma Split(s: Sys, W: Master, i: nat, j: nat) returns (run: seq<Action>, t: Sys)
    requires Inv(s, W) && i < |s.parts| && Left(s, i) && j < |s.parts| && j != i
    ensures Plain(run) && Leads(s, run, t) && |t.parts| == |s.parts| && Conflicting(t, i, j)
  {
    var cmd, tid := Other(s.parts[i], s.txid), s.txid;
    var over, s1, W1 := Overtakes(s, W, i, j, cmd);
    var back;
    back, t := Returns(s1, W1, i, j);
    run := over + back;
    Then(s, over, s1, back, t);
    PlainBoth(over, back);
    assert PartInv(s, W, i);
    assert tid in s.parts[i].log && tid in s1.parts[j].log;
    assert t.parts[i].log[tid] != t.parts[j].log[tid];
  }

  // ---- how somebody is left behind ----

  /** Nobody of the first `m` but participant `i` has anything. */
  ghost predicate Bare(s: Sys, i: nat, m: nat) {
    forall k {:trigger s.parts[k]} :: 0 <= k < m && k < |s.parts| && k != i ==> s.parts[k] == INITIAL
  }

  /** The first `m` participants but `i` crash. */
  lemma {:induction false} Crashes(s: Sys, i: nat, m: nat) returns (run: seq<Action>, t: Sys)
    requires Wf(s) && i < |s.parts| && m <= |s.parts|
    ensures Mild(run) && Leads(s, run, t)
    ensures t == s.(parts := t.parts, up := t.up) && t.parts[i] == s.parts[i] && Bare(t, i, m)
    decreases m
  {
    if m == 0 {
      run, t := [], s;
    } else {
      run, t := Crashes(s, i, m - 1);
      if m - 1 != i {
        var a := Crash(m - 1);
        var t2 := Lose(t, m - 1);
        assert [a][1..] == [];
        Then(s, run, t, [a], t2);
        MildMore(run, a);
        run, t := run + [a], t2;
      }
    }
  }

  ghost predicate DeafPart(s: Sys, k: nat)
    requires Wf(s) && s.ph.Query? && k < |s.parts|
  {
    Waits(s, k) || (k in s.ph.pending && s.pst[k] == P_RECOVERY)
  }

  /** In a recovery that has reached nobody yet, whoever has been asked waits. */
  ghost predicate Deaf(s: Sys) {
    && Wf(s) && s.ph.Query? && s.ph.same && s.tb == map[]
    && forall k {:trigger DeafPart(s, k)} :: 0 <= k < |s.parts| ==> DeafPart(s, k)
  }

  /** Participant `k` has not been reached. */
  function Unreached(s: Sys, k: nat): (t: Sys)
    requires Wf(s) && s.ph.Query? && k < |s.parts|
    ensures Wf(t) && |t.parts| == |s.parts|
  {
    (if s.pst[k] == P_RECOVERY then Cut(s, k) else s).(ph := Query(s.ph.low, s.ph.pending - {k}, s.ph.same))
  }

  lemma UnreachedIs(s: Sys, k: nat)
    requires Deaf(s) && k in s.ph.pending && k < |s.parts|
    ensures Step(s, Exchange(k, Undelivered)) == Unreached(s, k)
  {
  }

  /** Nothing arrives any more, and the recovery ends with everybody waiting. */
  lemma {:induction false} Silence(s: Sys) returns (run: seq<Action>, t: Sys)
    requires Deaf(s) && forall k {:trigger k in s.ph.pending} :: k in s.ph.pending ==> k < |s.parts|
    ensures Mild(run) && Leads(s, run, t)
    ensures t.parts == s.parts && t.txid == s.txid && t.ph.Idle? && t.restarted == s.restarted
    ensures forall k {:trigger Waits(t, k)} :: 0 <= k < |t.parts| ==> Waits(t, k)
    decreases |s.ph.pending|
  {
    if s.ph.pending == {} {
      run, t := [Advance], Finish(s);
      assert run[1..] == [];
      forall k | 0 <= k < |t.parts| ensures Waits(t, k) {
        assert DeafPart(s, k);
      }
    } else {
      var k :| k in s.ph.pending;
      var a, s2 := Exchange(k, Undelivered), Unreached(s, k);
      UnreachedIs(s, k);
      forall l | 0 <= l < |s.parts| ensures DeafPart(s2, l) {
        assert DeafPart(s, l);
      }
      var rest;
      rest, t := Silence(s2);
      First(s, a, rest, t);
      run := [a] + rest;
    }
  }

  /** If everybody but participant `i` has nothing and then nothing arrives, `i` is left behind. */
  lemma LeaveBehind(s: Sys, W: Master, i: nat) returns (run: seq<Action>, t: Sys)
    requires Inv(s, W) && s.ph.Idle? && i < |s.parts| && s.parts[i].txid > s.txid && Bare(s, i, |s.parts|)
    ensures Mild(run) && Leads(s, run, t) && |t.parts| == |s.parts| && Left(t, i)
  {
    if s.pst[i] == P_WAITING {
      var a := Reconnect(i);
      ReconnectInv(s, W, i);
      run, t := FallsSilent(Step(s, a), W, i);
      First(s, a, run, t);
      MildFirst(a, run);
      run := [a] + run;
    } else {
      assert PartInv(s, W, i) && PhasePart(s, i);
      run, t := FallsSilent(s, W, i);
    }
  }

  /** A recovery begins when participant `i` has just been connected, and reaches nobody. */
  lemma FallsSilent(s: Sys, W: Master, i: nat) returns (run: seq<Action>, t: Sys)
    requires Inv(s, W) && s.ph.Idle? && i < |s.parts| && s.parts[i].txid > s.txid && Bare(s, i, |s.parts|)
    requires Fresh(s, i)
    ensures Mild(run) && Leads(s, run, t) && |t.parts| == |s.parts| && Left(t, i)
  {
    var a := StartRecovery(s.txid - 1);
    var s1 := Step(s, a);
    forall k | 0 <= k < |s.parts| ensures DeafPart(s1, k) {
      assert PhasePart(s, k);
    }
    run, t := Silence(s1);
    First(s, a, run, t);
    MildFirst(a, run);
    run := [a] + run;
  }

  /** From wherever somebody is ahead of the coordinator between operations, and there is somebody else, a run
      without a restart and without a single answer lost leads to a conflict. */
  lemma Diverge(s: Sys, W: Master, i: nat, j: nat) returns (run: seq<Action>, t: Sys)
    requires Inv(s, W) && s.ph.Idle? && i < |s.parts| && s.parts[i].txid > s.txid && j < |s.parts| && j != i
    ensures Mild(run) && Leads(s, run, t) && |t.parts| == |s.parts| && Conflicting(t, i, j)
  {
    var crash, s1 := Crashes(s, i, |s.parts|);
    var W1 := RunInv(s, W, crash);
    var leave, s2 := LeaveBehind(s1, W1, i);
    var W2 := RunInv(s1, W1, leave);
    var split;
    split, t := Split(s2, W2, i, j);
    Then(s1, leave, s2, split, t);
    Then(s, crash, s1, leave + split, t);
    run := crash + (leave + split);
    MildBoth(leave, split);
    MildBoth(crash, leave + split);
  }

  /** After any run: whenever the coordinator is idle and somebody is ahead of it, be it that an update has ended
      in an error because an answer was lost or that a recovery has missed somebody, a conflict can follow. */
  lemma AheadLeadsToConflict(n: nat, run: seq<Action>, i: nat, j: nat) returns (more: seq<Action>, t: Sys)
    requires CanRun(Init(n), run) && i < n && j < n && i != j
    requires var s := Run(Init(n), run); s.ph.Idle? && s.parts[i].txid > s.txid
    ensures Mild(more) && Leads(Run(Init(n), run), more, t) && |t.parts| == n && Conflicting(t, i, j)
  {
    InitInv(n);
    var W := RunInv(Init(n), Some(map[]), run);
    more, t := Diverge(Run(Init(n), run), W, i, j);
  }

  // ---- exactly then ----

  ghost predicate SameStory(s: Sys, i: nat, j: nat)
    requires Wf(s) && i < |s.parts| && j < |s.parts|
  {
    Compatible(s.parts[i].log, s.parts[i].txid, s.parts[j].log, s.parts[j].txid)
  }

  /** All logs tell the same story, as far as they go. */
  ghost predicate InAgreement(s: Sys)
    requires Wf(s)
  {
    forall i, j {:trigger SameStory(s, i, j)} :: 0 <= i < |s.parts| && 0 <= j < |s.parts| ==> SameStory(s, i, j)
  }

  lemma MasterAgrees(s: Sys, W: Master)
    requires Inv(s, W) && W.Some?
    ensures InAgreement(s)
  {
    forall i, j | 0 <= i < |s.parts| && 0 <= j < |s.parts| ensures SameStory(s, i, j) {
      PairAgrees(s, W, i, j);
    }
  }

  lemma ConflictDisagrees(s: Sys, W: Master, i: nat, j: nat)
    requires Inv(s, W) && i < |s.parts| && j < |s.parts| && Conflicting(s, i, j)
    ensures !InAgreement(s)
  {
    assert PartInv(s, W, i) && PartInv(s, W, j);
    if SameStory(s, i, j) { SamePart(s.parts[i], s.parts[j]); }
  }

  /** However the run goes on, short of a restart or a lost answer. */
  ghost predicate StaysInAgreement(s: Sys)
    requires Wf(s)
  {
    forall more {:trigger CanRun(s, more)} :: CanRun(s, more) && Prompted(s, more) && Mild(more) ==>
      InAgreement(Run(s, more))
  }

  lemma EvenAgrees(s: Sys, W: Master, more: seq<Action>)
    requires Inv(s, W) && W.Some? && NobodyAhead(s) && CanRun(s, more) && Mild(more)
    ensures InAgreement(Run(s, more))
  {
    EvenIsTame(s);
    RunTame(s, W, more);
    var W2 := RunInv(s, W, more);
    MasterAgrees(Run(s, more), W2);
  }

  lemma AheadConflicts(s: Sys, W: Master)
    requires Inv(s, W) && s.ph.Idle? && |s.parts| >= 2 && !NobodyAhead(s)
    ensures !StaysInAgreement(s)
  {
    var i :| 0 <= i < |s.parts| && s.parts[i].txid > s.txid;
    var j := if i == 0 then 1 else 0;
    var more, t := Diverge(s, W, i, j);
    var W2 := RunInv(s, W, more);
    ConflictDisagrees(t, W2, i, j);
  }

  /** The condition of agreement, checked between operations of any run whose updates began where they fitted: if
      nobody is ahead of the coordinator then, and only then, the logs are in agreement whatever mild run
      follows. */
  lemma AgreementIsExact(n: nat, run: seq<Action>)
    requires n >= 2 && CanRun(Init(n), run) && Guarded(Init(n), run) && Run(Init(n), run).ph.Idle?
    ensures NobodyAhead(Run(Init(n), run)) <==> StaysInAgreement(Run(Init(n), run))
  {
    InitInv(n);
    var W := RunInv(Init(n), Some(map[]), run);
    var s := Run(Init(n), run);
    if NobodyAhead(s) {
      forall more {:trigger CanRun(s, more)} | CanRun(s, more) && Mild(more) ensures InAgreement(Run(s, more)) {
        EvenAgrees(s, W, more);
      }
    } else {
      AheadConflicts(s, W);
    }
  }

  // ---- no update can begin where it does not fit ----

  lemma NotVoted(s: Sys, k: nat)
    requires Wf(s) && s.ph.Vote? && k in s.ph.pending && k < |s.parts|
    ensures var t := Step(s, Exchange(k, Undelivered));
      t.ph == Vote(s.ph.cmd, s.ph.pending - {k}, s.ph.yes) && t.parts == s.parts && t.txid == s.txid
  {
  }

  /** No vote arrives, and the update ends in an error. */
  lemma {:induction false} NoVote(s: Sys) returns (run: seq<Action>, t: Sys)
    requires Wf(s) && s.ph.Vote? && !s.ph.yes && Bounded(s)
    ensures Mild(run) && Leads(s, run, t) && t.parts == s.parts && t.txid == s.txid && t.ph.Idle?
    decreases |s.ph.pending|
  {
    if s.ph.pending == {} {
      run, t := [Advance], FinishVote(s);
      assert run[1..] == [];
    } else {
      var k :| k in s.ph.pending;
      NotVoted(s, k);
      var rest;
      rest, t := NoVote(Step(s, Exchange(k, Undelivered)));
      First(s, Exchange(k, Undelivered), rest, t);
      run := [Exchange(k, Undelivered)] + rest;
    }
  }

  lemma Misfit(s: Sys, W: Master, cmd: seq<string>) returns (more: seq<Action>, t: Sys, i: nat, j: nat)
    requires Inv(s, W) && |s.parts| >= 2 && Enabled(s, StartUpdate(cmd)) && !Fits(s, cmd)
    ensures Mild(more) && Leads(Step(s, StartUpdate(cmd)), more, t)
    ensures |t.parts| == |s.parts| && i < |s.parts| && j < |s.parts| && Conflicting(t, i, j)
  {
    var k :| 0 <= k < |s.parts| && !FitsPart(s, cmd, k);
    i, j := k, if k == 0 then 1 else 0;
    WithoutMaster(s, W);
    StartUpdateInv(s, None, cmd);
    var s1 := Step(s, StartUpdate(cmd));
    var end, s2 := NoVote(s1);
    var W2 := RunInv(s1, None, end);
    var rest;
    rest, t := Diverge(s2, W2, i, j);
    Then(s1, end, s2, rest, t);
    MildBoth(end, rest);
    more := end + rest;
  }

  /** The guard cannot be weaker: where an update of a run begins and does not fit, a mild continuation leads to a
      conflict. */
  lemma {:induction false} GuardIsNeeded(s: Sys, W: Master, run: seq<Action>)
      returns (before: seq<Action>, more: seq<Action>, t: Sys, i: nat, j: nat)
    requires Inv(s, W) && |s.parts| >= 2 && CanRun(s, run) && !Guarded(s, run)
    ensures before <= run && CanRun(s, before) && Mild(more) && Leads(Run(s, before), more, t)
    ensures |t.parts| == |s.parts| && i < |s.parts| && j < |s.parts| && Conflicting(t, i, j)
    decreases |run|
  {
    var a := run[0];
    if Fitting(s, a) {
      var W1 := StepInv(s, W, a);
      before, more, t, i, j := GuardIsNeeded(Step(s, a), W1, run[1..]);
      RunFirst(s, a, before);
      before := [a] + before;
    } else {
      more, t, i, j := Misfit(s, W, a.cmd);
      before := [];
      RunFirst(s, a, before);
      before := [a];
    }
  }

  /** So `Guarded` is the exact condition: a run that meets it is in agreement all along (`LogsAgree`), and one
      that does not can be continued to a conflict from where it failed to. */
  lemma UnguardedRunsConflict(n: nat, run: seq<Action>)
      returns (before: seq<Action>, more: seq<Action>, t: Sys, i: nat, j: nat)
    requires n >= 2 && CanRun(Init(n), run) && !Guarded(Init(n), run)
    ensures before <= run && CanRun(Init(n), before) && Mild(more) && Leads(Run(Init(n), before), more, t)
    ensures |t.parts| == n && i < n && j < n && Conflicting(t, i, j)
  {
    InitInv(n);
    before, more, t, i, j := GuardIsNeeded(Init(n), Some(map[]), run);
  }

  // ---- one answer lost ----

  /** Nobody is left to commit, and the update ends in an error. */
  lemma {:induction false} NobodyCommits(s: Sys) returns (run: seq<Action>)
    requires Wf(s) && s.ph.Commit? && s.ph.rets == map[] && Bounded(s)
    requires forall k {:trigger Waits(s, k)} :: 0 <= k < |s.parts| ==> Waits(s, k)
    ensures Plain(run) && Leads(s, run, s.(ph := Idle(ErrorReply)))
    decreases |s.ph.pending|
  {
    if s.ph.pending == {} {
      LastSuccessFacts(s.ph.rets, |s.parts|);
      run := [Advance];
      assert run[1..] == [];
    } else {
      var k :| k in s.ph.pending;
      var a := Exchange(k, Heard);
      assert Waits(s, k);
      var s2 := Step(s, a);
      assert s2 == s.(ph := Commit(s.ph.cmd, s.ph.pending - {k}, map[]));
      forall l | 0 <= l < |s.parts| ensures Waits(s2, l) {
        assert Waits(s, l);
      }
      var rest := NobodyCommits(s2);
      First(s, a, rest, s.(ph := Idle(ErrorReply)));
      run := [a] + rest;
    }
  }

  /** Participant 0 alone is connected and voted for `A`. */
  lemma UpToCommit(n: nat) returns (run: seq<Action>, s: Sys, W: Master)
    requires n >= 2
    ensures Plain(run) && Leads(Init(n), run, s) && Inv(s, W)
    ensures !s.restarted && s.ph == Commit(A, Ids(n), map[]) && Live(s, 0)
    ensures forall k {:trigger Waits(s, k)} :: 0 < k < n ==> Waits(s, k)
    ensures forall k {:trigger s.parts[k]} :: 0 <= k < n ==> s.parts[k].txid <= s.txid
  {
    InitInv(n);
    WithoutMaster(Init(n), Some(map[]));
    forall k | 0 <= k < n ensures Waits(Init(n), k) {}
    var join, s1, W1 := Joins(Init(n), None, 0);
    var a := StartUpdate(A);
    StartUpdateInv(s1, W1, A);
    var s2 := Step(s1, a);
    var vote;
    vote, s, W := SmoothVote(s1, A, s2, W1, 0);
    PlainSmooth(a, vote);
    NoneBegins(s2, vote);
    First(s1, a, vote, s);
    Then(Init(n), join, s1, [a] + vote, s);
    run := join + ([a] + vote);
    PlainBoth(join, [a] + vote);
    forall k | 0 < k < n ensures Waits(s, k) {
      assert Waits(s1, k);
    }
    EvenIsTame(Init(n));
    MildBoth([], run);
    assert [] + run == run;
    RunTame(Init(n), None, run);
    forall k {:trigger s.parts[k]} | 0 <= k < n ensures s.parts[k].txid <= s.txid {
      assert TamePart(s, k);
    }
  }

  lemma AnswerLost(s: Sys, W: Master) returns (t: Sys)
    requires Inv(s, W) && s.ph == Commit(A, Ids(|s.parts|), map[]) && |s.parts| > 0 && Live(s, 0)
    ensures t == Step(s, Exchange(0, Unheard)) && t.ph == Commit(A, Ids(|s.parts|) - {0}, map[])
    ensures t.parts == s.parts[0 := t.parts[0]] && t.parts[0].txid == s.txid + 1
    ensures t.pst == s.pst[0 := P_WAITING] && t.txid == s.txid && t.restarted == s.restarted
  {
    CommitAnswer(s, W, 0);
    t := Step(s, Exchange(0, Unheard));
    assert t == Cut(Executed(s, 0, CommitRequest(s, A)), 0).(ph := Commit(A, Ids(|s.parts|) - {0}, map[]));
  }

  lemma LastAnswerLost(s: Sys, W: Master) returns (run: seq<Action>, t: Sys)
    requires Inv(s, W) && s.ph == Commit(A, Ids(|s.parts|), map[]) && |s.parts| > 0 && Live(s, 0) && !s.restarted
    requires forall k {:trigger Waits(s, k)} :: 0 < k < |s.parts| ==> Waits(s, k)
    requires forall k {:trigger s.parts[k]} :: 0 <= k < |s.parts| ==> s.parts[k].txid <= s.txid
    ensures Plain(run) && Leads(Step(s, Exchange(0, Unheard)), run, t) && |t.parts| == |s.parts| && Left(t, 0)
  {
    var s1 := AnswerLost(s, W);
    forall k | 0 <= k < |s.parts| ensures Waits(s1, k) {
      if k != 0 { assert Waits(s, k); }
    }
    run := NobodyCommits(s1);
    t := s1.(ph := Idle(ErrorReply));
    forall k | 0 <= k < |t.parts| ensures Waits(t, k) {
      assert Waits(s1, k);
    }
  }

  lemma FromLostAnswer(s: Sys, W: Master) returns (after: seq<Action>, t: Sys)
    requires Inv(s, W) && s.ph == Commit(A, Ids(|s.parts|), map[]) && |s.parts| > 1 && Live(s, 0) && !s.restarted
    requires forall k {:trigger Waits(s, k)} :: 0 < k < |s.parts| ==> Waits(s, k)
    requires forall k {:trigger s.parts[k]} :: 0 <= k < |s.parts| ==> s.parts[k].txid <= s.txid
    ensures Plain(after) && Leads(s, [Exchange(0, Unheard)] + after, t)
    ensures |t.parts| == |s.parts| && Conflicting(t, 0, 1)
  {
    var lost := Exchange(0, Unheard);
    var s1 := Step(s, lost);
    var end, s2 := LastAnswerLost(s, W);
    var W1 := StepInv(s, W, lost);
    var W2 := RunInv(s1, W1, end);
    var split;
    split, t := Split(s2, W2, 0, 1);
    Then(s1, end, s2, split, t);
    PlainBoth(end, split);
    after := end + split;
    First(s, lost, after, t);
  }

  /** It takes one lost answer, with any number of participants beyond one.  Participant 0 executes a command and
      the coordinator does not hear of it; participant 1 commits another under the same transaction id; and when
      participant 0 is connected again, equal ids make it pass for up to date. */
  lemma OneAnswerLost(n: nat) returns (before: seq<Action>, after: seq<Action>, t: Sys)
    requires n >= 2
    ensures Plain(before) && Plain(after) && Leads(Init(n), before + ([Exchange(0, Unheard)] + after), t)
    ensures |t.parts| == n && Conflicting(t, 0, 1)
  {
    var s, W;
    before, s, W := UpToCommit(n);
    after, t := FromLostAnswer(s, W);
    Then(Init(n), before, s, [Exchange(0, Unheard)] + after, t);
  }
}

/** Operations in which nothing goes wrong can always be brought to an end, and what they come to. */
module Progress {
  import opened Replica
  import opened Protocol
  import opened Invariant
  import opened Agreement
  import opened Requests
  import opened Recoveries
  import opened Durability

  // ---- recoveries ----

  /** From wherever a recovery is, the coordinator and its threads can finish it. */
  lemma {:induction false} SmoothRecovery(s: Sys, W: Master) returns (run: seq<Action>)
    requires Inv(s, W) && Recovering(s.ph)
    ensures Smooth(run) && Serving(s, run)
    decreases RankOf(s).stage, RankOf(s).size, RankOf(s).active, RankOf(s).entries, RankOf(s).parts
  {
    var a := NeverStuck(s, W);
    MoveLeavesLess(s, W, a);
    var W2 := StepInv(s, W, a);
    RecoveryStep(s, s, W, a);
    var s2 := Step(s, a);
    var rest := [];
    if !s2.ph.Idle? { rest := SmoothRecovery(s2, W2); }
    run := [a] + rest;
    assert run[1..] == rest;
  }

  /** A recovery that began in `s0` and has lost nobody brings everyone reached to the longest log. */
  lemma CalmRecovery(s0: Sys, top: nat, s: Sys, W: Master) returns (run: seq<Action>, t: Sys, W2: Master)
    requires Wf(s0) && Inv(s, W) && |s.parts| == |s0.parts| && InRecovery(s0, s) && Calm(s0, top, s)
    ensures Smooth(run) && CanRun(s, run) && t == Run(s, run) && Inv(t, W2) && W2.Some? == W.Some?
    ensures t.ph.Idle? && t.serving && !t.restarted && |t.parts| == |s0.parts| && AllAt(s0, top, t)
  {
    run := SmoothRecovery(s, W);
    ServingRuns(s, run);
    ServingGuarded(s, run);
    RecoveryRuns(s0, s, W, run);
    CalmRuns(s0, top, s, W, run);
    W2 := RunInv(s, W, run);
    t := Run(s, run);
    CalmEnds(s0, top, t, W.Some?);
  }

  /** A recovery that reaches nobody ahead of the coordinator brings everyone reached to the coordinator's id. */
  lemma Recovers(s: Sys, W: Master) returns (run: seq<Action>, t: Sys, W2: Master)
    requires Inv(s, W) && s.ph.Idle? && AllLinked(s) && Longest(s, |s.parts|) == s.txid
    ensures Smooth(run) && CanRun(s, [StartRecovery(s.txid - 1)] + run)
    ensures t == Run(s, [StartRecovery(s.txid - 1)] + run) && Inv(t, W2) && W2.Some? == W.Some?
    ensures t.ph.Idle? && t.serving && !t.restarted && |t.parts| == |s.parts| && AllAt(s, s.txid, t)
  {
    var a := StartRecovery(s.txid - 1);
    var s1 := Step(s, a);
    var W1 := StepInv(s, W, a);
    StartCalm(s, W, s.txid - 1);
    run, t, W2 := CalmRecovery(s, s.txid, s1, W1);
    RunFirst(s, a, run);
  }

  // ---- updates ----

  predicate Rounding(s: Sys) {
    s.ph.Vote? || s.ph.Commit?
  }

  /** The next thing to do in an update: the exchange of some worker, or the end of the round. */
  lemma NextMove(s: Sys) returns (a: Action)
    requires Wf(s) && Rounding(s) && forall id {:trigger id in s.ph.pending} :: id in s.ph.pending ==> id < |s.parts|
    ensures Enabled(s, a) && if s.ph.pending == {} then a == Advance
                             else a.Exchange? && a.fate == Heard && a.id in s.ph.pending
  {
    if s.ph.pending == {} {
      a := Advance;
    } else {
      var id :| id in s.ph.pending;
      a := Exchange(id, Heard);
    }
  }

  /** Between `s` and `t` participants may have come to wait, and the coordinator's flags are as they were. */
  ghost predicate Moved(s: Sys, t: Sys) {
    && Wf(s) && Wf(t) && |t.parts| == |s.parts| && t.serving == s.serving && t.restarted == s.restarted
    && (forall k {:trigger t.pst[k]} :: 0 <= k < |s.pst| ==> t.pst[k] == s.pst[k] || t.pst[k] == P_WAITING)
  }

  lemma MoveKeeps(s: Sys, a: Action)
    requires Wf(s) && Rounding(s) && Enabled(s, a) && (a.Exchange? || a.Advance?)
    ensures Moved(s, Step(s, a))
  {
    match a
    case Exchange(id, fate) =>
      if s.ph.Vote? { VoteMoved(s, id, fate); } else { CommitMoved(s, id, fate); }
    case Advance =>
  }

  lemma VoteMoved(s: Sys, id: nat, fate: Fate)
    requires Wf(s) && s.ph.Vote? && id < |s.parts|
    ensures Moved(s, VoteExchange(s, id, fate))
  {
    VoteEffect(s, id, fate);
    SendShape(s, id, VoteRequest(s), fate);
  }

  lemma CommitMoved(s: Sys, id: nat, fate: Fate)
    requires Wf(s) && s.ph.Commit? && id < |s.parts|
    ensures Moved(s, CommitExchange(s, id, fate))
  {
    CommitEffect(s, id, fate);
    SendShape(s, id, CommitRequest(s, s.ph.cmd), fate);
  }

  /** The workers that have still to do their exchange are those of participants. */
  predicate Bounded(s: Sys)
    requires Rounding(s)
  {
    forall id {:trigger id in s.ph.pending} :: id in s.ph.pending ==> id < |s.parts|
  }

  /** Where a move of an update leads. */
  ghost predicate Next(s0: Sys, cmd: seq<string>, s: Sys, t: Sys, agreed: bool)
    requires Wf(s) && Wf(t) && Rounding(s)
  {
    if s.ph.pending != {} then
      Updating(s0, cmd, t) && t.ph.Vote? == s.ph.Vote? && t.ph.pending < s.ph.pending && Bounded(t)
    else if s.ph.Vote? && s.ph.yes then t == s.(ph := Commit(cmd, Ids(|s.parts|), map[]))
    else t.ph.Idle? && UpdateMeans(s0, cmd, t, agreed)
  }

  lemma MoveLeads(s0: Sys, cmd: seq<string>, s: Sys, W: Master, a: Action)
    requires Inv(s, W) && Updating(s0, cmd, s) && Bounded(s) && Enabled(s, a)
    requires if s.ph.pending == {} then a == Advance else a.Exchange? && a.id in s.ph.pending
    ensures Next(s0, cmd, s, Step(s, a), W.Some?)
  {
    if a.Exchange? {
      RoundKeeps(s, a.id, a.fate);
      assert a.id !in Step(s, a).ph.pending;
    } else {
      UpdateStep(s0, cmd, s, W, a);
    }
  }

  /** One move of an update, participant `j` being live. */
  lemma LiveMove(s0: Sys, cmd: seq<string>, s: Sys, W: Master, j: nat) returns (a: Action, t: Sys, W2: Master)
    requires Inv(s, W) && Updating(s0, cmd, s) && Bounded(s) && j < |s.parts| && Live(s, j)
    ensures Enabled(s, a) && (a.Advance? || (a.Exchange? && a.fate == Heard))
    ensures t == Step(s, a) && Inv(t, W2) && W2.Some? == W.Some? && Moved(s, t)
    ensures Live(t, j) && Grows(s.parts[j], t.parts[j])
    ensures Next(s0, cmd, s, t, W.Some?) && (s.ph.pending == {} && s.ph.Vote? ==> s.ph.yes)
  {
    a := NextMove(s);
    t := Step(s, a);
    MoveKeeps(s, a);
    StepStays(s, W, a, j);
    W2 := StepInv(s, W, a);
    MoveLeads(s0, cmd, s, W, a);
    assert PhasePart(s, j);
  }

  lemma {:induction false} SmoothVote(s0: Sys, cmd: seq<string>, s: Sys, W: Master, j: nat)
      returns (run: seq<Action>, t: Sys, W2: Master)
    requires Inv(s, W) && Updating(s0, cmd, s) && s.ph.Vote? && Bounded(s) && j < |s.parts| && Live(s, j)
    ensures Smooth(run) && CanRun(s, run) && t == Run(s, run) && Inv(t, W2) && W2.Some? == W.Some? && Moved(s, t)
    ensures Updating(s0, cmd, t) && t.ph == Commit(cmd, Ids(|s.parts|), map[])
    ensures Live(t, j) && Grows(s.parts[j], t.parts[j])
    decreases |s.ph.pending|
  {
    var a, s2, W1 := LiveMove(s0, cmd, s, W, j);
    run, t, W2 := [], s2, W1;
    if s.ph.pending != {} {
      SubsetSize(s2.ph.pending, s.ph.pending);
      run, t, W2 := SmoothVote(s0, cmd, s2, W1, j);
    }
    RunFirst(s, a, run);
    run := [a] + run;
  }

  lemma {:induction false} SmoothCommit(s0: Sys, cmd: seq<string>, s: Sys, W: Master, j: nat)
      returns (run: seq<Action>, t: Sys, W2: Master)
    requires Inv(s, W) && Updating(s0, cmd, s) && s.ph.Commit? && Bounded(s) && j < |s.parts| && Live(s, j)
    ensures Smooth(run) && CanRun(s, run) && t == Run(s, run) && Inv(t, W2) && W2.Some? == W.Some? && Moved(s, t)
    ensures t.ph.Idle? && UpdateMeans(s0, cmd, t, W.Some?)
    ensures Live(t, j) && Grows(s.parts[j], t.parts[j])
    decreases |s.ph.pending|
  {
    var a, s2, W1 := LiveMove(s0, cmd, s, W, j);
    run, t, W2 := [], s2, W1;
    if s.ph.pending != {} {
      SubsetSize(s2.ph.pending, s.ph.pending);
      run, t, W2 := SmoothCommit(s0, cmd, s2, W1, j);
    }
    RunFirst(s, a, run);
    run := [a] + run;
  }

  lemma SmoothUpdate(s0: Sys, cmd: seq<string>, s: Sys, W: Master, j: nat)
      returns (run: seq<Action>, t: Sys, W2: Master)
    requires Inv(s, W) && Updating(s0, cmd, s) && s.ph.Vote? && Bounded(s) && j < |s.parts| && Live(s, j)
    ensures Smooth(run) && CanRun(s, run) && t == Run(s, run) && Inv(t, W2) && W2.Some? == W.Some? && Moved(s, t)
    ensures t.ph.Idle? && UpdateMeans(s0, cmd, t, W.Some?)
    ensures Live(t, j) && Grows(s.parts[j], t.parts[j])
  {
    var vote, s1, W1 := SmoothVote(s0, cmd, s, W, j);
    var commit;
    commit, t, W2 := SmoothCommit(s0, cmd, s1, W1, j);
    RunJoin(s, vote, commit);
    run := vote + commit;
  }

  /** With a live participant a well-formed update can be brought to commit, and to an answer. */
  lemma Commits(s: Sys, W: Master, j: nat, cmd: seq<string>) returns (run: seq<Action>, t: Sys, W2: Master)
    requires Inv(s, W) && s.ph.Idle? && s.serving && IsWrite(cmd) && Accepted(Command(cmd))
    requires (W.Some? ==> Fits(s, cmd)) && j < |s.parts| && Live(s, j)
    ensures Smooth(run) && CanRun(s, [StartUpdate(cmd)] + run) && t == Run(s, [StartUpdate(cmd)] + run)
    ensures Inv(t, W2) && W2.Some? == W.Some? && Moved(s, t) && t.ph.Idle?
    ensures t.txid == s.txid + 1 && Live(t, j) && Grows(s.parts[j], t.parts[j])
    ensures Holds(t, j, s.txid, Log(s.txid, LOG_COMMIT, Command(cmd)))
  {
    var a := StartUpdate(cmd);
    var s1 := Step(s, a);
    StartUpdateInv(s, W, cmd);
    WritesAccepted(cmd);
    run, t, W2 := SmoothUpdate(s, cmd, s1, W, j);
    RunFirst(s, a, run);
    assert t.parts[j].txid == t.txid;
  }
}

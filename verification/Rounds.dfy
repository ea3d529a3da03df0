/** What the worker threads of one round have done so far, and the bookkeeping of the run the coordinator
    is making. */
module Rounds {
  import opened Kv
  import opened Replica
  import opened Options
  import opened Protocol
  import opened Invariant
  import opened RecoveryInvariant
  import opened Agreement
  import opened Requests
  import opened Recoveries
  import opened Fairness
  import opened Sealing

  const RET_SKIP: int := 1
  const KV_NETWORK: int := -6

  /** The operation in progress. */
  datatype Goal = NoGoal | UpdateGoal(cmd: seq<string>) | ReadGoal(cmd: seq<string>) | RecoveryGoal

  ghost predicate Doing(goal: Goal, s0: Sys, s: Sys)
    requires Wf(s)
  {
    match goal
    case NoGoal => false
    case UpdateGoal(cmd) => Updating(s0, cmd, s)
    case ReadGoal(cmd) => Reading(s0, cmd, s)
    case RecoveryGoal => InRecovery(s0, s)
  }

  ghost predicate DoneOf(goal: Goal, s0: Sys, s: Sys, agreed: bool, fair: bool)
    requires Wf(s)
  {
    && (fair ==> Unharmed(goal, s0, s))
    && match goal
       case NoGoal => false
       case UpdateGoal(cmd) => UpdateMeans(s0, cmd, s, agreed)
       case ReadGoal(cmd) => ReadMeans(s0, cmd, s, agreed)
       case RecoveryGoal => RecoveryMeans(s0, s, agreed)
  }

  /** What is sure of an operation in which nothing has been lost so far, and of one that is over. */
  ghost predicate Steady(goal: Goal, s0: Sys, s: Sys) {
    if goal.RecoveryGoal? then
      Wf(s0) && Wf(s) && |s0.parts| == |s.parts| && (AllLinked(s0) ==> Calm(s0, Longest(s0, |s0.parts|), s))
    else LiveKept(s0, s)
  }

  ghost predicate Unharmed(goal: Goal, s0: Sys, s: Sys) {
    if goal.RecoveryGoal? then
      Wf(s0) && Wf(s) && |s0.parts| == |s.parts| && (AllLinked(s0) ==> AllAt(s0, Longest(s0, |s0.parts|), s))
    else LiveKept(s0, s)
  }

  /** The operation has achieved in `s` what it is for. */
  ghost predicate Done(goal: Goal, s0: Sys, s: Sys, agreed: bool, fair: bool) {
    forall x {:trigger Open(x)} :: x == s ==> Wf(x) && DoneOf(goal, s0, x, agreed, fair)
  }

  lemma DoneIs(goal: Goal, s0: Sys, s: Sys, agreed: bool, fair: bool)
    requires Done(goal, s0, s, agreed, fair)
    ensures Wf(s) && DoneOf(goal, s0, s, agreed, fair)
  {
    assert Open(s);
  }

  lemma DoneNow(goal: Goal, s0: Sys, s: Sys, agreed: bool, fair: bool)
    requires Wf(s) && DoneOf(goal, s0, s, agreed, fair)
    ensures Done(goal, s0, s, agreed, fair)
  {
  }

  lemma GoalStep(goal: Goal, s0: Sys, s: Sys, W: Master, a: Action)
    requires Inv(s, W) && Doing(goal, s0, s) && Enabled(s, a) && a != Restart
    ensures var s2 := Step(s, a);
      (Doing(goal, s0, s2) && !s2.ph.Idle?) || (DoneOf(goal, s0, s2, W.Some?, false) && s2.ph.Idle?)
  {
    match goal
    case UpdateGoal(cmd) => UpdateStep(s0, cmd, s, W, a);
    case ReadGoal(cmd) => ReadStep(s0, cmd, s, W, a);
    case RecoveryGoal => RecoveryStep(s0, s, W, a);
  }

  /** A step in which nothing is lost leaves the operation steady, or ends it unharmed. */
  lemma SteadyStep(goal: Goal, s0: Sys, s: Sys, W: Master, a: Action)
    requires Inv(s, W) && Doing(goal, s0, s) && Steady(goal, s0, s) && Enabled(s, a) && a != Restart && Kind(a)
    ensures var s2 := Step(s, a);
      if s2.ph.Idle? then DoneOf(goal, s0, s2, W.Some?, false) ==> Unharmed(goal, s0, s2) else Steady(goal, s0, s2)
  {
    if !goal.RecoveryGoal? {
      ServingKeeps(s0, s, W, a);
    } else if AllLinked(s0) {
      var top, s2 := Longest(s0, |s0.parts|), Step(s, a);
      CalmStep(s0, top, s, W, a);
      if s2.ph.Idle? && RecoveryMeans(s0, s2, W.Some?) { CalmEnds(s0, top, s2, W.Some?); }
    }
  }

  lemma OperationStep(goal: Goal, s0: Sys, s: Sys, W: Master, a: Action, fair: bool)
    requires Inv(s, W) && Doing(goal, s0, s) && Enabled(s, a) && a != Restart
    requires fair ==> Steady(goal, s0, s) && Kind(a)
    ensures var s2 := Step(s, a);
      if s2.ph.Idle? then DoneOf(goal, s0, s2, W.Some?, fair)
      else Doing(goal, s0, s2) && (fair ==> Steady(goal, s0, s2))
  {
    GoalStep(goal, s0, s, W, a);
    if fair { SteadyStep(goal, s0, s, W, a); }
  }

  /** An operation begins steady. */
  lemma SteadyStart(goal: Goal, s: Sys, W: Master, a: Action)
    requires Inv(s, W) && s.ph.Idle? && Enabled(s, a) && Doing(goal, s, Step(s, a))
    ensures Steady(goal, s, Step(s, a))
  {
    if goal.RecoveryGoal? {
      assert a.StartRecovery?;
      if AllLinked(s) { StartCalm(s, W, a.low); }
    }
  }

  /** Action `a` can happen in `s` and leads to `t`. */
  ghost predicate Moves(s: Sys, a: Action, t: Sys) {
    forall x {:trigger Open(x)} :: x == s ==> Wf(x) && Enabled(x, a) && Step(x, a) == t
  }

  /** Action `a` begins an operation. */
  ghost predicate Begins(goal: Goal, s: Sys, a: Action, t: Sys) {
    forall x {:trigger Open(x)} :: x == s ==>
      Wf(x) && x.ph.Idle? && Enabled(x, a) && Step(x, a) == t && Doing(goal, x, t)
  }

  lemma BeginsIs(goal: Goal, s: Sys, a: Action, t: Sys)
    requires Wf(s) && s.ph.Idle? && Enabled(s, a) && Step(s, a) == t && Doing(goal, s, t)
    ensures Begins(goal, s, a, t)
  {
  }

  lemma MovesIs(s: Sys, a: Action, t: Sys)
    ensures Moves(s, a, t) <==> Wf(s) && Enabled(s, a) && Step(s, a) == t
  {
    assert Open(s);
  }

  /** The run `trace` leads to `s`, which satisfies the invariant, and the operation is in progress, and steady if
      nothing has been lost since it began. */
  ghost predicate Lawful(n: nat, trace: seq<Action>, s: Sys, W: Master, goal: Goal, op: Sys, fair: bool) {
    forall x {:trigger Open(x)} :: x == s ==> Underway(n, trace, x, W, goal, op, fair)
  }

  ghost predicate Underway(n: nat, trace: seq<Action>, s: Sys, W: Master, goal: Goal, op: Sys, fair: bool) {
    && CanRun(Init(n), trace) && Run(Init(n), trace) == s && Inv(s, W) && (W.Some? <==> Guarded(Init(n), trace))
    && (!s.ph.Idle? ==> Doing(goal, op, s) && (fair ==> Steady(goal, op, s)))
  }

  lemma LawfulLess(n: nat, trace: seq<Action>, s: Sys, W: Master, goal: Goal, op: Sys, fair: bool, less: bool)
    requires Lawful(n, trace, s, W, goal, op, fair) && (less ==> fair)
    ensures Lawful(n, trace, s, W, goal, op, less)
  {
    assert Open(s);
    assert Underway(n, trace, s, W, goal, op, less);
  }

  lemma LawfulStep(n: nat, trace: seq<Action>, s: Sys, W: Master, goal: Goal, op: Sys, a: Action, t: Sys, fair: bool)
    returns (W2: Master)
    requires Lawful(n, trace, s, W, goal, op, fair) && Moves(s, a, t) && a != Restart && (s.ph.Idle? ==> t.ph.Idle?)
    requires fair ==> Kind(a)
    ensures Lawful(n, trace + [a], t, W2, goal, op, fair) && Wf(t)
    ensures W2.Some? == W.Some? && (!s.ph.Idle? && t.ph.Idle? ==> Done(goal, op, t, W2.Some?, fair))
  {
    assert Open(s);
    RunMore(Init(n), trace, a);
    W2 := StepInv(s, W, a);
    if !s.ph.Idle? {
      OperationStep(goal, op, s, W, a, fair);
      if t.ph.Idle? { DoneNow(goal, op, t, W2.Some?, fair); }
    }
    assert Underway(n, trace + [a], t, W2, goal, op, fair);
  }

  lemma LawfulStart(n: nat, trace: seq<Action>, s: Sys, W: Master, goal: Goal, op: Sys, a: Action, t: Sys,
                    goal2: Goal, fair: bool, fair2: bool)
    returns (W2: Master)
    requires Lawful(n, trace, s, W, goal, op, fair) && Begins(goal2, s, a, t)
    ensures Wf(t) && Lawful(n, trace + [a], t, W2, goal2, s, fair2)
  {
    assert Open(s);
    RunMore(Init(n), trace, a);
    W2 := StepInv(s, W, a);
    SteadyStart(goal2, s, W, a);
    assert Underway(n, trace + [a], t, W2, goal2, s, fair2);
  }

  lemma LawfulRestart(n: nat, trace: seq<Action>, goal: Goal, op: Sys, fair: bool) returns (W2: Master)
    requires CanRun(Init(n), trace)
    ensures Lawful(n, trace + [Restart], Step(Run(Init(n), trace), Restart), W2, goal, op, fair)
  {
    InitInv(n);
    var W := RunInv(Init(n), Some(map[]), trace);
    RunMore(Init(n), trace, Restart);
    var s := Step(Run(Init(n), trace), Restart);
    W2 := StepInv(Run(Init(n), trace), W, Restart);
    assert Underway(n, trace + [Restart], s, W2, goal, op, fair);
  }

  /** The log of all transactions is there as long as the updates of the run began where they fit. */
  lemma LawfulAgreed(n: nat, trace: seq<Action>, s: Sys, W: Master, goal: Goal, op: Sys, fair: bool)
    requires Lawful(n, trace, s, W, goal, op, fair)
    ensures CanRun(Init(n), trace) && (W.Some? <==> Guarded(Init(n), trace))
  {
    assert Open(s);
  }

  /** The coordinator finds the entry of the update it is about to commit. */
  lemma LawfulCommit(n: nat, trace: seq<Action>, s: Sys, W: Master, goal: Goal, op: Sys, fair: bool)
    requires Lawful(n, trace, s, W, goal, op, fair) && s.ph.Commit?
    ensures s.txid in s.log
  {
    assert Open(s);
  }

  ghost predicate SameBut<T>(a: map<nat, T>, b: map<nat, T>, id: nat) {
    forall j {:trigger j in a} {:trigger j in b} :: j != id ==> (j in a <==> j in b) && (j in a ==> a[j] == b[j])
  }

  /** One round of the working thread of participant `id`: what it does to the system, and the results. */
  ghost predicate PWorkedOf(s: Sys, s2: Sys, id: nat, task: Log, fate: Fate,
                          ret: map<nat, int>, ret2: map<nat, int>, data: map<nat, Reply>, data2: map<nat, Reply>)
    requires Wf(s) && id < |s.parts|
  {
    && SameBut(data2, data, id)
    && if s.pst[id] != P_WORKING then s2 == s && ret2 == ret[id := RET_SKIP]
       else
         var (s1, r) := Send(s, id, task, fate);
         && s2 == s1 && ret2 == ret[id := if r.Some? then KV_OK else KV_NETWORK]
         && (r.Some? ==> id in data2 && data2[id] == r.value)
  }

  ghost predicate PWorked(s: Sys, s2: Sys, id: nat, task: Log, fate: Fate,
                          ret: map<nat, int>, ret2: map<nat, int>, data: map<nat, Reply>, data2: map<nat, Reply>)
  {
    forall x {:trigger Open(x)} :: x == s ==>
      Wf(x) && id < |x.parts| && PWorkedOf(x, s2, id, task, fate, ret, ret2, data, data2)
  }

  lemma PWorkedIs(s: Sys, s2: Sys, id: nat, task: Log, fate: Fate,
                  ret: map<nat, int>, ret2: map<nat, int>, data: map<nat, Reply>, data2: map<nat, Reply>)
    requires Wf(s) && id < |s.parts| && PWorkedOf(s, s2, id, task, fate, ret, ret2, data, data2)
    ensures PWorked(s, s2, id, task, fate, ret, ret2, data, data2)
  {
  }

  /** The same, given what sending it does. */
  ghost predicate WorkedCase(s: Sys, id: nat, s1: Sys, r: Option<Reply>, s2: Sys, ret2: map<nat, int>,
                             data2: map<nat, Reply>)
    requires Wf(s) && id < |s.parts|
  {
    && id in ret2
    && if s.pst[id] != P_WORKING then s2 == s && ret2[id] != KV_OK
       else if r.Some? then s2 == s1 && ret2[id] == KV_OK && id in data2 && data2[id] == r.value
       else s2 == s1 && ret2[id] != KV_OK
  }

  lemma PWorkedCase(s: Sys, s2: Sys, id: nat, task: Log, d: Fate, s1: Sys, r: Option<Reply>,
                    ret: map<nat, int>, ret2: map<nat, int>, data: map<nat, Reply>, data2: map<nat, Reply>)
    requires Wf(s) && id < |s.parts| && PWorked(s, s2, id, task, d, ret, ret2, data, data2)
    requires (s1, r) == Send(s, id, task, d)
    ensures WorkedCase(s, id, s1, r, s2, ret2, data2)
    ensures SameBut(ret2, ret, id) && SameBut(data2, data, id)
    ensures Wf(s1) && |s1.parts| == |s.parts| && s1.txid == s.txid
  {
    assert Open(s);
  }

  // ---- the rounds of an update ----

  /** The round of phase `a` goes on in phase `b`. */
  predicate GoesOn(a: Phase, b: Phase) {
    match a
    case Vote(cmd, pending, _) => b.Vote? && b.cmd == cmd && b.pending <= pending
    case Commit(cmd, pending, _) => b.Commit? && b.cmd == cmd && b.pending <= pending
    case _ => false
  }

  function RoundRequest(s: Sys): Log {
    if s.ph.Commit? then CommitRequest(s, s.ph.cmd) else VoteRequest(s)
  }

  predicate VotedYes(ret: map<nat, int>, data: map<nat, Reply>, j: nat) {
    j in ret && ret[j] == KV_OK && j in data && data[j] == PreReply
  }

  /** Whether one of the first `n` participants has voted for the update. */
  predicate HasYes(ret: map<nat, int>, data: map<nat, Reply>, n: nat) {
    n > 0 && (VotedYes(ret, data, n - 1) || HasYes(ret, data, n - 1))
  }

  predicate Succeeded(ret: map<nat, int>, data: map<nat, Reply>, j: nat) {
    j in ret && ret[j] == KV_OK && j in data && data[j] != ErrorReply
  }

  /** The last of the results of the first `n` participants that is not an error. */
  function LastGood(ret: map<nat, int>, data: map<nat, Reply>, n: nat): Option<Reply> {
    if n == 0 then None
    else if Succeeded(ret, data, n - 1) then Some(data[n - 1])
    else LastGood(ret, data, n - 1)
  }

  /** The results of the workers that are done are there. */
  ghost predicate Results(n: nat, pending: set<nat>, ret: map<nat, int>, data: map<nat, Reply>) {
    forall j {:trigger j in ret} :: 0 <= j < n && j !in pending ==> j in ret && (ret[j] == KV_OK ==> j in data)
  }

  lemma ResultsMore(n: nat, pending: set<nat>, ret: map<nat, int>, data: map<nat, Reply>, id: nat, ret2: map<nat, int>,
                    data2: map<nat, Reply>)
    requires Results(n, pending, ret, data) && id < n
    requires SameBut(ret2, ret, id) && SameBut(data2, data, id) && id in ret2 && (ret2[id] == KV_OK ==> id in data2)
    ensures Results(n, pending - {id}, ret2, data2)
  {
    forall j {:trigger j in ret2} | 0 <= j < n && j !in pending - {id}
      ensures j in ret2 && (ret2[j] == KV_OK ==> j in data2)
    {
      assert j != id ==> j in ret;
    }
  }

  /** The results of the workers that are done are there, and the phase has counted them. */
  ghost predicate Tally(n: nat, ph: Phase, ret: map<nat, int>, data: map<nat, Reply>)
    requires ph.Vote? || ph.Commit?
  {
    && Results(n, ph.pending, ret, data)
    && if ph.Vote? then
         ph.yes <==> exists j {:trigger VotedYes(ret, data, j)} ::
                       0 <= j < n && j !in ph.pending && VotedYes(ret, data, j)
       else
         && (forall j {:trigger j in ph.rets} :: j in ph.rets ==>
             j !in ph.pending && j in data && data[j] == ph.rets[j])
         && (forall j {:trigger j in ph.rets} :: 0 <= j < n && j !in ph.pending ==> (j in ph.rets <==> ret[j] == KV_OK))
  }

  /** The first `k` tasks are given out, each the message `m`, and the workers of `busy` have not done
      theirs; `pending` are the participants whose exchange is still to come. */
  ghost predicate GivenOut(n: nat, k: nat, pending: set<nat>, busy: set<nat>, task: map<nat, Log>, m: Log) {
    && (forall j {:trigger j in busy} :: j in busy ==> j < k && j < n && j in pending && j in task && task[j] == m)
    && (forall j {:trigger j in pending} :: j in pending ==> j < n && (j < k ==> j in busy))
    && (forall j {:trigger j in pending} :: k <= j < n ==> j in pending)
  }

  lemma GivenOutMore(n: nat, k: nat, pending: set<nat>, busy: set<nat>, task: map<nat, Log>, m: Log)
    requires k < n && GivenOut(n, k, pending, busy, task, m)
    ensures GivenOut(n, k + 1, pending, busy + {k}, task[k := m], m)
  {
    assert k in pending;
  }

  lemma GivenOutFewer(n: nat, k: nat, pending: set<nat>, busy: set<nat>, task: map<nat, Log>, m: Log, id: nat)
    requires id in busy && GivenOut(n, k, pending, busy, task, m)
    ensures GivenOut(n, k, pending - {id}, busy - {id}, task, m)
  {
    assert forall j {:trigger j in pending - {id}} :: k <= j < n ==> j in pending && j != id;
  }

  /** A round in which the first `k` tasks are given out, and the workers of `busy` have not done theirs. */
  ghost predicate RoundOf(n: nat, k: nat, s: Sys, busy: set<nat>, task: map<nat, Log>, ret: map<nat, int>,
                          data: map<nat, Reply>)
  {
    && (s.ph.Vote? || s.ph.Commit?) && Wf(s) && |s.parts| == n
    && GivenOut(n, k, s.ph.pending, busy, task, RoundRequest(s))
    && Tally(n, s.ph, ret, data)
  }

  ghost predicate Round(n: nat, k: nat, s: Sys, busy: set<nat>, task: map<nat, Log>, ret: map<nat, int>,
                        data: map<nat, Reply>)
  {
    forall x {:trigger Open(x)} :: x == s ==> RoundOf(n, k, x, busy, task, ret, data)
  }

  /** The results that were there are still there. */
  ghost predicate KeepDone(pending: set<nat>, ret: map<nat, int>, data: map<nat, Reply>, ret2: map<nat, int>,
                           data2: map<nat, Reply>)
  {
    && (forall j {:trigger j in ret2} {:trigger j in ret} :: j !in pending ==>
        (j in ret2 <==> j in ret) && (j in ret ==> ret2[j] == ret[j]))
    && (forall j {:trigger j in data2} {:trigger j in data} :: j !in pending ==>
        (j in data2 <==> j in data) && (j in data ==> data2[j] == data[j]))
  }

  lemma RoundBegins(n: nat, s: Sys, task: map<nat, Log>, ret: map<nat, int>, data: map<nat, Reply>)
    requires Wf(s) && |s.parts| == n && ((s.ph.Vote? && !s.ph.yes) || (s.ph.Commit? && s.ph.rets == map[]))
    requires s.ph.pending == Ids(n)
    ensures Round(n, 0, s, {}, task, ret, data)
  {
    assert RoundOf(n, 0, s, {}, task, ret, data);
  }

  lemma RoundPosts(n: nat, k: nat, s: Sys, busy: set<nat>, task: map<nat, Log>, ret: map<nat, int>,
                   data: map<nat, Reply>, m: Log)
    requires k < n && Round(n, k, s, busy, task, ret, data) && m == RoundRequest(s)
    ensures Round(n, k + 1, s, busy + {k}, task[k := m], ret, data)
  {
    assert Open(s);
    GivenOutMore(n, k, s.ph.pending, busy, task, m);
  }

  lemma RoundBusy(n: nat, k: nat, s: Sys, busy: set<nat>, task: map<nat, Log>, ret: map<nat, int>,
                  data: map<nat, Reply>, id: nat)
    requires Round(n, k, s, busy, task, ret, data)
    ensures s.ph.Vote? || s.ph.Commit?
    ensures id in busy ==> id < n && id in s.ph.pending && id in task && task[id] == RoundRequest(s)
    ensures k == n && id !in busy ==> id !in s.ph.pending
    ensures k == n && busy == {} ==> s.ph.pending == {}
  {
    assert Open(s);
    assert k == n && busy == {} ==> forall j :: j !in s.ph.pending;
  }

  lemma StepVote(s: Sys, id: nat, d: Fate, s1: Sys, r: Option<Reply>) returns (t: Sys)
    requires Wf(s) && s.ph.Vote? && id in s.ph.pending && id < |s.parts| && (s1, r) == Send(s, id, VoteRequest(s), d)
    ensures Moves(s, Exchange(id, d), t) && Wf(t) && |t.parts| == |s.parts| && s1.txid == s.txid
    ensures s.pst[id] != P_WORKING ==> t == s.(ph := Vote(s.ph.cmd, s.ph.pending - {id}, s.ph.yes))
    ensures s.pst[id] == P_WORKING ==>
        t == s1.(ph := Vote(s.ph.cmd, s.ph.pending - {id}, s.ph.yes || r == Some(PreReply)))
  {
    SendShape(s, id, VoteRequest(s), d);
    t := VoteExchange(s, id, d);
    MovesIs(s, Exchange(id, d), t);
  }

  lemma StepCommit(s: Sys, id: nat, d: Fate, s1: Sys, r: Option<Reply>) returns (t: Sys)
    requires Wf(s) && s.ph.Commit? && id in s.ph.pending && id < |s.parts|
    requires (s1, r) == Send(s, id, CommitRequest(s, s.ph.cmd), d)
    ensures Moves(s, Exchange(id, d), t) && Wf(t) && |t.parts| == |s.parts| && s1.txid == s.txid
    ensures s.pst[id] != P_WORKING ==> t == s.(ph := Commit(s.ph.cmd, s.ph.pending - {id}, s.ph.rets))
    ensures s.pst[id] == P_WORKING ==>
        t == s1.(ph := Commit(s.ph.cmd, s.ph.pending - {id}, if r.Some? then s.ph.rets[id := r.value] else s.ph.rets))
  {
    SendShape(s, id, CommitRequest(s, s.ph.cmd), d);
    t := CommitExchange(s, id, d);
    MovesIs(s, Exchange(id, d), t);
  }

  /** A worker does its task: that is one exchange of the round. */
  lemma VoteResult(s: Sys, id: nat, d: Fate, s2: Sys, ret: map<nat, int>, ret2: map<nat, int>,
                   data: map<nat, Reply>, data2: map<nat, Reply>) returns (t: Sys)
    requires Wf(s) && s.ph.Vote? && id < |s.parts| && id in s.ph.pending
    requires PWorked(s, s2, id, VoteRequest(s), d, ret, ret2, data, data2)
    ensures Moves(s, Exchange(id, d), t) && t == s2.(ph := t.ph) && Wf(t) && |t.parts| == |s.parts| && t.txid == s.txid
    ensures SameBut(ret2, ret, id) && id in ret2 && (ret2[id] == KV_OK ==> id in data2)
    ensures t.ph == Vote(s.ph.cmd, s.ph.pending - {id}, s.ph.yes || VotedYes(ret2, data2, id))
  {
    var (s1, r) := Send(s, id, VoteRequest(s), d);
    PWorkedCase(s, s2, id, VoteRequest(s), d, s1, r, ret, ret2, data, data2);
    t := StepVote(s, id, d, s1, r);
    VoteCase(s, id, s1, r, s2, ret2, data2, t);
  }

  lemma VoteCase(s: Sys, id: nat, s1: Sys, r: Option<Reply>, s2: Sys, ret2: map<nat, int>, data2: map<nat, Reply>,
                 t: Sys)
    requires Wf(s) && s.ph.Vote? && id < |s.parts| && WorkedCase(s, id, s1, r, s2, ret2, data2) && s1.txid == s.txid
    requires s.pst[id] != P_WORKING ==> t == s.(ph := Vote(s.ph.cmd, s.ph.pending - {id}, s.ph.yes))
    requires s.pst[id] == P_WORKING ==>
        t == s1.(ph := Vote(s.ph.cmd, s.ph.pending - {id}, s.ph.yes || r == Some(PreReply)))
    ensures t == s2.(ph := t.ph) && t.txid == s.txid && (ret2[id] == KV_OK ==> id in data2)
    ensures t.ph == Vote(s.ph.cmd, s.ph.pending - {id}, s.ph.yes || VotedYes(ret2, data2, id))
  {
  }

  lemma CommitResult(s: Sys, id: nat, d: Fate, s2: Sys, ret: map<nat, int>, ret2: map<nat, int>,
                     data: map<nat, Reply>, data2: map<nat, Reply>) returns (t: Sys)
    requires Wf(s) && s.ph.Commit? && id < |s.parts| && id in s.ph.pending
    requires PWorked(s, s2, id, CommitRequest(s, s.ph.cmd), d, ret, ret2, data, data2)
    ensures Moves(s, Exchange(id, d), t) && t == s2.(ph := t.ph) && Wf(t) && |t.parts| == |s.parts| && t.txid == s.txid
    ensures SameBut(ret2, ret, id) && id in ret2 && (ret2[id] == KV_OK ==> id in data2)
    ensures t.ph == Commit(s.ph.cmd, s.ph.pending - {id},
                           if ret2[id] == KV_OK then s.ph.rets[id := data2[id]] else s.ph.rets)
  {
    var (s1, r) := Send(s, id, CommitRequest(s, s.ph.cmd), d);
    PWorkedCase(s, s2, id, CommitRequest(s, s.ph.cmd), d, s1, r, ret, ret2, data, data2);
    t := StepCommit(s, id, d, s1, r);
    CommitCase(s, id, s1, r, s2, ret2, data2, t);
  }

  lemma CommitCase(s: Sys, id: nat, s1: Sys, r: Option<Reply>, s2: Sys, ret2: map<nat, int>, data2: map<nat, Reply>,
                   t: Sys)
    requires Wf(s) && s.ph.Commit? && id < |s.parts| && WorkedCase(s, id, s1, r, s2, ret2, data2) && s1.txid == s.txid
    requires s.pst[id] != P_WORKING ==> t == s.(ph := Commit(s.ph.cmd, s.ph.pending - {id}, s.ph.rets))
    requires s.pst[id] == P_WORKING ==>
        t == s1.(ph := Commit(s.ph.cmd, s.ph.pending - {id}, if r.Some? then s.ph.rets[id := r.value] else s.ph.rets))
    ensures t == s2.(ph := t.ph) && t.txid == s.txid && (ret2[id] == KV_OK ==> id in data2)
    ensures t.ph == Commit(s.ph.cmd, s.ph.pending - {id},
                           if ret2[id] == KV_OK then s.ph.rets[id := data2[id]] else s.ph.rets)
  {
  }

  lemma RoundWorks(n: nat, k: nat, s: Sys, busy: set<nat>, task: map<nat, Log>, ret: map<nat, int>,
                   data: map<nat, Reply>,
                   id: nat, d: Fate, s2: Sys, ret2: map<nat, int>, data2: map<nat, Reply>) returns (t: Sys)
    requires Wf(s) && id < |s.parts| && id in busy && id in task
    requires Round(n, k, s, busy, task, ret, data) && PWorked(s, s2, id, task[id], d, ret, ret2, data, data2)
    ensures Moves(s, Exchange(id, d), t) && Wf(t) && |t.parts| == n
    ensures t == s2.(ph := t.ph) && Round(n, k, t, busy - {id}, task, ret2, data2)
    ensures (s.ph.Vote? && t.ph.Vote?) || (s.ph.Commit? && t.ph.Commit?)
    ensures t.ph.cmd == s.ph.cmd && t.ph.pending == s.ph.pending - {id}
    ensures KeepDone(s.ph.pending, ret, data, ret2, data2)
  {
    assert Open(s);
    if s.ph.Vote? {
      t := VoteResult(s, id, d, s2, ret, ret2, data, data2);
      TallyVote(n, s.ph, t.ph, ret, data, id, ret2, data2);
    } else {
      t := CommitResult(s, id, d, s2, ret, ret2, data, data2);
      TallyCommit(n, s.ph, t.ph, ret, data, id, ret2, data2);
    }
    RoundFewer(n, k, s, t, busy, task, ret, data, id, ret2, data2);
  }

  lemma RoundFewer(n: nat, k: nat, s: Sys, t: Sys, busy: set<nat>, task: map<nat, Log>, ret: map<nat, int>,
                   data: map<nat, Reply>,
                   id: nat, ret2: map<nat, int>, data2: map<nat, Reply>)
    requires RoundOf(n, k, s, busy, task, ret, data) && id in busy && Wf(t) && |t.parts| == n && t.txid == s.txid
    requires (s.ph.Vote? && t.ph.Vote?) || (s.ph.Commit? && t.ph.Commit?)
    requires t.ph.cmd == s.ph.cmd && t.ph.pending == s.ph.pending - {id} && Tally(n, t.ph, ret2, data2)
    ensures Round(n, k, t, busy - {id}, task, ret2, data2)
  {
    assert RoundRequest(t) == RoundRequest(s);
    GivenOutFewer(n, k, s.ph.pending, busy, task, RoundRequest(s), id);
    assert RoundOf(n, k, t, busy - {id}, task, ret2, data2);
  }

  lemma TallyVote(n: nat, ph: Phase, ph2: Phase, ret: map<nat, int>, data: map<nat, Reply>,
                  id: nat, ret2: map<nat, int>, data2: map<nat, Reply>)
    requires ph.Vote? && Tally(n, ph, ret, data) && id in ph.pending && id < n
    requires SameBut(ret2, ret, id) && SameBut(data2, data, id) && id in ret2 && (ret2[id] == KV_OK ==> id in data2)
    requires ph2 == Vote(ph.cmd, ph.pending - {id}, ph.yes || VotedYes(ret2, data2, id))
    ensures Tally(n, ph2, ret2, data2)
  {
    ResultsMore(n, ph.pending, ret, data, id, ret2, data2);
    if ph.yes {
      var j :| 0 <= j < n && j !in ph.pending && VotedYes(ret, data, j);
      assert VotedYes(ret2, data2, j);
    }
    forall j | 0 <= j < n && j !in ph2.pending && VotedYes(ret2, data2, j) ensures ph2.yes {
      assert j != id ==> VotedYes(ret, data, j);
    }
  }

  lemma TallyCommit(n: nat, ph: Phase, ph2: Phase, ret: map<nat, int>, data: map<nat, Reply>,
                    id: nat, ret2: map<nat, int>, data2: map<nat, Reply>)
    requires ph.Commit? && Tally(n, ph, ret, data) && id in ph.pending && id < n
    requires SameBut(ret2, ret, id) && SameBut(data2, data, id) && id in ret2 && (ret2[id] == KV_OK ==> id in data2)
    requires ph2 == Commit(ph.cmd, ph.pending - {id}, if ret2[id] == KV_OK then ph.rets[id := data2[id]] else ph.rets)
    ensures Tally(n, ph2, ret2, data2)
  {
    ResultsMore(n, ph.pending, ret, data, id, ret2, data2);
    forall j {:trigger j in ph2.rets} | j in ph2.rets
      ensures j !in ph2.pending && j in data2 && data2[j] == ph2.rets[j]
    {
      assert j != id ==> j in ph.rets;
    }
    forall j {:trigger j in ph2.rets} | 0 <= j < n && j !in ph2.pending ensures j in ph2.rets <==> ret2[j] == KV_OK {
      assert j != id ==> (j in ph.rets <==> j in ph2.rets) && j in ret;
    }
  }

  /** Once collected, always collected. */
  lemma {:induction false} HasYesKept(pending: set<nat>, ret: map<nat, int>, data: map<nat, Reply>,
                                      ret2: map<nat, int>, data2: map<nat, Reply>, n: nat)
    requires KeepDone(pending, ret, data, ret2, data2)
    requires forall j {:trigger j in pending} :: 0 <= j < n ==> j !in pending
    ensures HasYes(ret2, data2, n) == HasYes(ret, data, n) && LastGood(ret2, data2, n) == LastGood(ret, data, n)
  {
    if n > 0 {
      HasYesKept(pending, ret, data, ret2, data2, n - 1);
      assert n - 1 !in pending;
      assert VotedYes(ret2, data2, n - 1) == VotedYes(ret, data, n - 1);
      assert Succeeded(ret2, data2, n - 1) == Succeeded(ret, data, n - 1);
    }
  }

  lemma {:induction false} HasYesMeans(ret: map<nat, int>, data: map<nat, Reply>, n: nat)
    ensures HasYes(ret, data, n) <==> exists j {:trigger VotedYes(ret, data, j)} :: 0 <= j < n && VotedYes(ret, data, j)
  {
    if n > 0 { HasYesMeans(ret, data, n - 1); }
  }

  lemma GoodMeans(n: nat, ph: Phase, ret: map<nat, int>, data: map<nat, Reply>, j: nat)
    requires ph.Commit? && ph.pending == {} && Tally(n, ph, ret, data) && j < n
    ensures Succeeded(ret, data, j) <==> j in ph.rets && ph.rets[j] != ErrorReply
    ensures j in ph.rets ==> j in data && data[j] == ph.rets[j]
  {
    assert j !in ph.pending;
    assert j in ret && (ret[j] == KV_OK ==> j in data);
    assert j in ph.rets <==> ret[j] == KV_OK;
  }

  lemma {:induction false} LastGoodMeans(n: nat, ph: Phase, ret: map<nat, int>, data: map<nat, Reply>, m: nat)
    requires ph.Commit? && ph.pending == {} && Tally(n, ph, ret, data) && m <= n
    ensures LastGood(ret, data, m) == LastSuccess(ph.rets, m)
  {
    if m > 0 {
      LastGoodMeans(n, ph, ret, data, m - 1);
      GoodMeans(n, ph, ret, data, m - 1);
    }
  }

  lemma UpdateStarts(s: Sys, cmd: seq<string>, t: Sys)
    requires Wf(s) && s.ph.Idle? && s.serving && IsWrite(cmd)
    requires t == s.(log := s.log[s.txid := Log(s.txid, LOG_PRE, Command(cmd))], ph := Vote(cmd, Ids(|s.parts|), false))
    ensures Begins(UpdateGoal(cmd), s, StartUpdate(cmd), t)
  {
    BeginsIs(UpdateGoal(cmd), s, StartUpdate(cmd), t);
  }

  lemma VoteEnds(s: Sys, t: Sys)
    requires Wf(s) && s.ph.Vote? && s.ph.pending == {}
    requires t == s.(ph := if s.ph.yes then Commit(s.ph.cmd, Ids(|s.parts|), map[]) else Idle(ErrorReply))
    ensures Moves(s, Advance, t)
  {
    MovesIs(s, Advance, t);
  }

  lemma CommitEnds(s: Sys, t: Sys)
    requires Wf(s) && s.ph.Commit? && s.ph.pending == {} && s.txid in s.log
    requires t == match LastSuccess(s.ph.rets, |s.parts|)
                  case None => s.(ph := Idle(ErrorReply))
                  case Some(rc) => s.(log := s.log[s.txid := s.log[s.txid].(state := LOG_COMMIT)], txid := s.txid + 1,
                                      ph := Idle(rc))
    ensures Moves(s, Advance, t)
  {
    MovesIs(s, Advance, t);
  }

  /** What the coordinator collects at the end of a round is what the phase has counted. */
  lemma RoundOver(n: nat, s: Sys, task: map<nat, Log>, ret: map<nat, int>, data: map<nat, Reply>)
    requires Round(n, n, s, {}, task, ret, data)
    ensures (s.ph.Vote? || s.ph.Commit?) && s.ph.pending == {}
    ensures s.ph.Vote? ==> HasYes(ret, data, n) == s.ph.yes
    ensures s.ph.Commit? ==> LastGood(ret, data, n) == LastSuccess(s.ph.rets, n)
  {
    RoundBusy(n, n, s, {}, task, ret, data, 0);
    assert Open(s);
    HasYesMeans(ret, data, n);
    if s.ph.Commit? { LastGoodMeans(n, s.ph, ret, data, n); }
  }

  /** Which participants and links there are is of no concern to a round. */
  lemma RoundAnyWorld(n: nat, k: nat, s: Sys, t: Sys, busy: set<nat>, task: map<nat, Log>, ret: map<nat, int>,
                      data: map<nat, Reply>)
    requires Round(n, k, s, busy, task, ret, data) && Wf(t) && |t.parts| == n && t.ph == s.ph && t.txid == s.txid
    ensures Round(n, k, t, busy, task, ret, data)
  {
    assert Open(s);
    assert RoundRequest(t) == RoundRequest(s);
    assert RoundOf(n, k, t, busy, task, ret, data);
  }

  lemma RoundNobodyBusy(n: nat, s: Sys, busy: set<nat>, task: map<nat, Log>, ret: map<nat, int>, data: map<nat, Reply>)
    requires Round(n, n, s, busy, task, ret, data) && forall j {:trigger j in busy} :: 0 <= j < n ==> j !in busy
    ensures busy == {}
  {
    assert Open(s);
  }

  // ---- the query round ----

  const QUERY: Log := Log(RECOVERY_TXID, LOG_PRE, NoEvent)

  /** Every entry of the first `c` participants is `top`. */
  ghost predicate AllAgree(tb: map<nat, nat>, top: nat, c: nat) {
    forall j {:trigger j in tb} :: 0 <= j < c && j in tb ==> tb[j] == top
  }

  /** A query round in which the first `k` tasks are given out.  `tb` is the table as it stands: it has an
      entry for whom an answer has come, and for the first `c` of them it is the one of the answer. */
  ghost predicate QueryingOf(n: nat, k: nat, c: nat, s: Sys, busy: set<nat>, task: map<nat, Log>,
                             ret: map<nat, int>, data: map<nat, Reply>, tb: map<nat, nat>)
  {
    && s.ph.Query? && Wf(s) && |s.parts| == n && s.txid >= TXID_START
    && GivenOut(n, k, s.ph.pending, busy, task, QUERY) && QueryTally(n, c, s, ret, data, tb)
    && (s.ph.same <==> AllAgree(s.tb, s.txid - 1, n))
  }

  /** The answers that have come are in the results, and in the tables. */
  ghost predicate QueryTally(n: nat, c: nat, s: Sys, ret: map<nat, int>, data: map<nat, Reply>, tb: map<nat, nat>)
    requires s.ph.Query?
  {
    && (forall j {:trigger j in s.tb} {:trigger j in tb} ::
          (j in tb <==> j in s.tb) && (j in s.tb ==> j < n && j !in s.ph.pending))
    && (forall j {:trigger j in ret} :: 0 <= j < n && j !in s.ph.pending ==>
        j in ret && (ret[j] == KV_OK <==> j in s.tb))
    && (forall j {:trigger j in s.tb} :: j in s.tb ==> j in data && data[j] == TxidReply(s.tb[j]))
    && (forall j {:trigger j in s.tb} :: j in s.tb && j < c ==> tb[j] == s.tb[j])
  }

  ghost predicate Querying(n: nat, k: nat, c: nat, s: Sys, busy: set<nat>, task: map<nat, Log>,
                           ret: map<nat, int>, data: map<nat, Reply>, tb: map<nat, nat>)
  {
    forall x {:trigger Open(x)} :: x == s ==> QueryingOf(n, k, c, x, busy, task, ret, data, tb)
  }

  /** One round of the recovery thread of participant `id`.  `s` and `s2` have the table as it stands. */
  ghost predicate PRecoveredOf(s: Sys, s2: Sys, id: nat, task: Log, fate: Fate,
                               ret: map<nat, int>, ret2: map<nat, int>, data: map<nat, Reply>, data2: map<nat, Reply>)
    requires Wf(s) && id < |s.parts|
  {
    && s2 == Deliver(s, id, task, fate)
    && SameBut(data2, data, id) && SameBut(ret2, ret, id) && id in ret2
    && (ret2[id] == KV_OK ==>
         && s.pst[id] == P_RECOVERY
         && id in data2 && Send(s, id, task, fate).1 == Some(data2[id]))
    && (ret2[id] != KV_OK && task.id < TXID_START && s.pst[id] == P_RECOVERY ==> Send(s, id, task, fate).1.None?)
  }

  ghost predicate PRecovered(s: Sys, s2: Sys, id: nat, task: Log, fate: Fate,
                             ret: map<nat, int>, ret2: map<nat, int>, data: map<nat, Reply>, data2: map<nat, Reply>)
  {
    forall x {:trigger Open(x)} :: x == s ==>
      Wf(x) && id < |x.parts| && PRecoveredOf(x, s2, id, task, fate, ret, ret2, data, data2)
  }

  lemma PRecoveredIs(s: Sys, s2: Sys, id: nat, task: Log, fate: Fate,
                     ret: map<nat, int>, ret2: map<nat, int>, data: map<nat, Reply>, data2: map<nat, Reply>)
    requires Wf(s) && id < |s.parts| && PRecoveredOf(s, s2, id, task, fate, ret, ret2, data, data2)
    ensures PRecovered(s, s2, id, task, fate, ret, ret2, data, data2)
  {
  }

  lemma QueryingBegins(n: nat, s: Sys, task: map<nat, Log>, ret: map<nat, int>, data: map<nat, Reply>)
    requires Wf(s) && |s.parts| == n && s.ph.Query? && s.ph.pending == Ids(n) && s.ph.same && s.tb == map[]
    requires s.txid >= TXID_START
    ensures Querying(n, 0, 0, s, {}, task, ret, data, map[])
  {
    assert QueryingOf(n, 0, 0, s, {}, task, ret, data, map[]);
  }

  lemma QueryingPosts(n: nat, k: nat, s: Sys, busy: set<nat>, task: map<nat, Log>, ret: map<nat, int>,
                      data: map<nat, Reply>, tb: map<nat, nat>)
    requires k < n && Querying(n, k, 0, s, busy, task, ret, data, tb)
    ensures Querying(n, k + 1, 0, s, busy + {k}, task[k := QUERY], ret, data, tb)
  {
    assert Open(s);
    GivenOutMore(n, k, s.ph.pending, busy, task, QUERY);
  }

  lemma QueryingBusy(n: nat, k: nat, c: nat, s: Sys, busy: set<nat>, task: map<nat, Log>, ret: map<nat, int>,
                     data: map<nat, Reply>, tb: map<nat, nat>, id: nat)
    requires Querying(n, k, c, s, busy, task, ret, data, tb)
    ensures s.ph.Query? && s.txid >= TXID_START && Wf(s) && |s.parts| == n
    ensures id in busy ==> id < n && id in s.ph.pending && id in task && task[id] == QUERY && id !in tb && id !in s.tb
    ensures k == n && id < n && id !in busy ==>
      && id !in s.ph.pending && id in ret && (ret[id] == KV_OK <==> id in s.tb)
      && (id in s.tb ==> id in data && data[id] == TxidReply(s.tb[id]))
  {
    assert Open(s);
    assert k == n && id < n && id !in busy ==> id !in s.ph.pending;
  }

  /** The exchange of the query round, given what sending the query does. */
  ghost predicate QueryCase(s: Sys, id: nat, s1: Sys, r: Option<Reply>, t: Sys)
    requires Wf(s) && s.ph.Query? && id < |s.parts|
  {
    if s.pst[id] != P_RECOVERY then t == s.(ph := Query(s.ph.low, s.ph.pending - {id}, s.ph.same))
    else if r.Some? then
      && r.value.TxidReply?
      && t == s1.(tb := s.tb[id := r.value.t],
                  ph := Query(s.ph.low, s.ph.pending - {id}, s.ph.same && r.value.t == s.txid - 1))
    else t == s1.(tb := s.tb - {id}, ph := Query(s.ph.low, s.ph.pending - {id}, s.ph.same))
  }

  lemma StepQuery(s: Sys, id: nat, d: Fate, s1: Sys, r: Option<Reply>) returns (t: Sys)
    requires Wf(s) && s.ph.Query? && id in s.ph.pending && id < |s.parts| && (s1, r) == Send(s, id, QUERY, d)
    ensures Moves(s, Exchange(id, d), t) && QueryCase(s, id, s1, r, t) && s1.txid == s.txid
  {
    QueryAnswer(s, id, d);
    SendShape(s, id, QUERY, d);
    t := QueryExchange(s, id, d);
    MovesIs(s, Exchange(id, d), t);
  }

  lemma QueryWorks(n: nat, k: nat, c: nat, s: Sys, busy: set<nat>, task: map<nat, Log>, ret: map<nat, int>,
                   data: map<nat, Reply>,
                   tb: map<nat, nat>, id: nat, d: Fate, w2: Sys, ret2: map<nat, int>,
                   data2: map<nat, Reply>) returns (t: Sys)
    requires Wf(s) && id < |s.parts| && id in busy && id in task && id >= c
    requires Querying(n, k, c, s, busy, task, ret, data, tb)
        && PRecovered(s.(tb := tb), w2, id, task[id], d, ret, ret2, data, data2)
    ensures Moves(s, Exchange(id, d), t) && Wf(t) && |t.parts| == n
    ensures t == w2.(ph := t.ph, tb := t.tb) && Querying(n, k, c, t, busy - {id}, task, ret2, data2, w2.tb)
    ensures s.ph.Query? && t.ph.Query? && t.ph.low == s.ph.low && SameBut(w2.tb, tb, id)
  {
    QueryingBusy(n, k, c, s, busy, task, ret, data, tb, id);
    var (s1, r) := Send(s, id, QUERY, d);
    t := StepQuery(s, id, d, s1, r);
    QueryHanded(s, tb, id, d, w2, s1, r, ret, ret2, data, data2);
    QueryTable(s, tb, id, w2, s1, r, ret2, data2, t);
    QueryTallied(n, k, c, s, t, busy, task, ret, data, tb, id, ret2, data2, w2.tb);
  }

  lemma SentAnyTable(s: Sys, tb: map<nat, nat>, id: nat, p: Part, rc: Reply, d: Fate)
    requires Wf(s) && id < |s.parts|
    ensures var (s1, r) := Sent(s, id, p, rc, d); Sent(s.(tb := tb), id, p, rc, d) == (s1.(tb := tb), r)
  {
    var s2 := s.(tb := tb);
    assert Cut(s2, id) == Cut(s, id).(tb := tb);
    assert Cut(Lose(s2, id), id) == Cut(Lose(s, id), id).(tb := tb);
    assert Cut(s2.(parts := s2.parts[id := p]), id) == Cut(s.(parts := s.parts[id := p]), id).(tb := tb);
  }

  lemma SendAnyTable(s: Sys, tb: map<nat, nat>, id: nat, m: Log, d: Fate)
    requires Wf(s) && id < |s.parts|
    ensures var (s1, r) := Send(s, id, m, d); Send(s.(tb := tb), id, m, d) == (s1.(tb := tb), r)
  {
    SentAnyTable(s, tb, id, Answer(s.parts[id], m).0, Answer(s.parts[id], m).1, d);
  }

  lemma QueryAnswer(s: Sys, id: nat, d: Fate)
    requires Wf(s) && id < |s.parts|
    ensures var r := Send(s, id, QUERY, d).1; r.Some? ==> r.value.TxidReply?
  {
  }

  /** What a recovery thread does with a query. */
  ghost predicate HandedCase(s: Sys, id: nat, s1: Sys, r: Option<Reply>, tb: map<nat, nat>, w2: Sys,
                             ret2: map<nat, int>, data2: map<nat, Reply>)
    requires Wf(s) && id < |s.parts|
  {
    && id in ret2
    && if s.pst[id] != P_RECOVERY then w2 == s.(tb := tb) && ret2[id] != KV_OK
       else if r.Some? then ret2[id] == KV_OK && id in data2 && data2[id] == r.value && w2 == s1.(tb := tb[id := 1])
       else ret2[id] != KV_OK && w2 == s1.(tb := tb - {id})
  }

  lemma QueryHanded(s: Sys, tb: map<nat, nat>, id: nat, d: Fate, w2: Sys, s1: Sys, r: Option<Reply>,
                    ret: map<nat, int>, ret2: map<nat, int>, data: map<nat, Reply>, data2: map<nat, Reply>)
    requires Wf(s) && id < |s.parts| && id !in tb && PRecovered(s.(tb := tb), w2, id, QUERY, d, ret, ret2, data, data2)
    requires (s1, r) == Send(s, id, QUERY, d)
    ensures SameBut(ret2, ret, id) && SameBut(data2, data, id)
    ensures HandedCase(s, id, s1, r, tb, w2, ret2, data2)
  {
    assert Open(s.(tb := tb));
    SendAnyTable(s, tb, id, QUERY, d);
    QueryAnswer(s, id, d);
  }

  /** What the answer to one query does to the table and to the results. */
  lemma QueryTable(s: Sys, tb: map<nat, nat>, id: nat, w2: Sys, s1: Sys, r: Option<Reply>, ret2: map<nat, int>,
                   data2: map<nat, Reply>, t: Sys)
    requires Wf(s) && s.ph.Query? && id < |s.parts| && id !in tb && id !in s.tb && s.txid >= TXID_START
    requires QueryCase(s, id, s1, r, t) && HandedCase(s, id, s1, r, tb, w2, ret2, data2)
    requires Wf(s1) && |s1.parts| == |s.parts| && s1.txid == s.txid
    ensures t == w2.(ph := t.ph, tb := t.tb) && Wf(t) && |t.parts| == |s.parts| && t.txid == s.txid
    ensures (id in t.tb <==> ret2[id] == KV_OK) && (id in w2.tb <==> id in t.tb)
    ensures id in t.tb ==> id in data2 && data2[id] == TxidReply(t.tb[id])
    ensures SameBut(t.tb, s.tb, id) && SameBut(w2.tb, tb, id)
    ensures t.ph == Query(s.ph.low, s.ph.pending - {id}, s.ph.same && (id in t.tb ==> t.tb[id] == s.txid - 1))
  {
  }

  lemma QueryTallyStep(n: nat, c: nat, s: Sys, t: Sys, ret: map<nat, int>, data: map<nat, Reply>, tb: map<nat, nat>,
                       id: nat, ret2: map<nat, int>, data2: map<nat, Reply>, tb2: map<nat, nat>)
    requires s.ph.Query? && s.txid >= TXID_START && QueryTally(n, c, s, ret, data, tb) && id in s.ph.pending
    requires c <= id < n
    requires t.txid == s.txid && SameBut(t.tb, s.tb, id) && SameBut(tb2, tb, id)
    requires SameBut(ret2, ret, id) && SameBut(data2, data, id) && id in ret2
    requires (id in t.tb <==> ret2[id] == KV_OK) && (id in tb2 <==> id in t.tb)
    requires id in t.tb ==> id in data2 && data2[id] == TxidReply(t.tb[id])
    requires t.ph == Query(s.ph.low, s.ph.pending - {id}, s.ph.same && (id in t.tb ==> t.tb[id] == s.txid - 1))
    ensures QueryTally(n, c, t, ret2, data2, tb2)
  {
    assert id !in s.tb;
    forall j {:trigger j in ret2} | 0 <= j < n && j !in t.ph.pending
      ensures j in ret2 && (ret2[j] == KV_OK <==> j in t.tb)
    {
      assert j != id ==> j in ret && (j in t.tb <==> j in s.tb);
    }
  }

  /** One more entry, and whether it is `top` with the others. */
  lemma TableGrows(tb: map<nat, nat>, tb2: map<nat, nat>, id: nat, top: nat, n: nat)
    requires id !in tb && id < n && SameBut(tb2, tb, id)
    ensures AllAgree(tb2, top, n) <==> AllAgree(tb, top, n) && (id in tb2 ==> tb2[id] == top)
  {
    if AllAgree(tb2, top, n) {
      forall j {:trigger j in tb} | 0 <= j < n && j in tb ensures tb[j] == top {
        assert j in tb2;
      }
    }
  }

  lemma QueryTallied(n: nat, k: nat, c: nat, s: Sys, t: Sys, busy: set<nat>, task: map<nat, Log>, ret: map<nat, int>,
                     data: map<nat, Reply>, tb: map<nat, nat>, id: nat, ret2: map<nat, int>, data2: map<nat, Reply>,
                     tb2: map<nat, nat>)
    requires Querying(n, k, c, s, busy, task, ret, data, tb) && id in busy && id >= c && s.ph.Query?
    requires Wf(t) && |t.parts| == n && t.txid == s.txid && SameBut(t.tb, s.tb, id) && SameBut(tb2, tb, id)
    requires SameBut(ret2, ret, id) && SameBut(data2, data, id) && id in ret2
    requires (id in t.tb <==> ret2[id] == KV_OK) && (id in tb2 <==> id in t.tb)
    requires id in t.tb ==> id in data2 && data2[id] == TxidReply(t.tb[id])
    requires t.ph == Query(s.ph.low, s.ph.pending - {id}, s.ph.same && (id in t.tb ==> t.tb[id] == s.txid - 1))
    ensures Querying(n, k, c, t, busy - {id}, task, ret2, data2, tb2)
  {
    assert Open(s);
    assert id !in s.tb;
    TableGrows(s.tb, t.tb, id, s.txid - 1, n);
    QueryTallyStep(n, c, s, t, ret, data, tb, id, ret2, data2, tb2);
    GivenOutFewer(n, k, s.ph.pending, busy, task, QUERY, id);
    assert QueryingOf(n, k, c, t, busy - {id}, task, ret2, data2, tb2);
  }

  /** The coordinator puts the answer it has collected into the table. */
  lemma QueryCollects(n: nat, c: nat, s: Sys, busy: set<nat>, task: map<nat, Log>, ret: map<nat, int>,
                      data: map<nat, Reply>, tb: map<nat, nat>)
    requires c < n && Querying(n, n, c, s, busy, task, ret, data, tb) && c !in busy
    ensures c in ret
    ensures ret[c] == KV_OK ==>
      && c in data && data[c].TxidReply? && c in s.tb && s.tb[c] == data[c].t
      && Querying(n, n, c + 1, s, busy, task, ret, data, tb[c := data[c].t])
    ensures ret[c] != KV_OK ==> Querying(n, n, c + 1, s, busy, task, ret, data, tb) && c !in tb
  {
    QueryingBusy(n, n, c, s, busy, task, ret, data, tb, c);
    assert Open(s);
    var tb2 := if ret[c] == KV_OK then tb[c := data[c].t] else tb;
    assert QueryTally(n, c + 1, s, ret, data, tb2);
  }

  /** The entries of the first `c` participants are untouched. */
  ghost predicate KeepLow(tb: map<nat, nat>, tb2: map<nat, nat>, c: nat) {
    forall j {:trigger j in tb} {:trigger j in tb2} :: 0 <= j < c ==>
        (j in tb2 <==> j in tb) && (j in tb ==> tb2[j] == tb[j])
  }

  /** `AllAgree`, participant by participant. */
  predicate Agree(tb: map<nat, nat>, top: nat, c: nat) {
    c == 0 || (Agree(tb, top, c - 1) && (c - 1 in tb ==> tb[c - 1] == top))
  }

  lemma {:induction false} AgreeMeans(tb: map<nat, nat>, top: nat, c: nat)
    ensures Agree(tb, top, c) <==> AllAgree(tb, top, c)
  {
    if c > 0 {
      AgreeMeans(tb, top, c - 1);
      assert AllAgree(tb, top, c) ==> AllAgree(tb, top, c - 1) && (c - 1 in tb ==> tb[c - 1] == top);
    }
  }

  lemma {:induction false} AgreeKept(tb: map<nat, nat>, tb2: map<nat, nat>, top: nat, c: nat)
    requires KeepLow(tb, tb2, c)
    ensures Agree(tb2, top, c) == Agree(tb, top, c)
  {
    if c > 0 {
      AgreeKept(tb, tb2, top, c - 1);
      assert c - 1 in tb2 <==> c - 1 in tb;
    }
  }

  lemma QueryNobodyBusy(n: nat, c: nat, s: Sys, busy: set<nat>, task: map<nat, Log>, ret: map<nat, int>,
                        data: map<nat, Reply>, tb: map<nat, nat>)
    requires Querying(n, n, c, s, busy, task, ret, data, tb) && forall j {:trigger j in busy} :: j in busy ==> j >= n
    ensures busy == {}
  {
    assert Open(s);
    assert forall j :: j !in busy;
  }

  lemma QueryOver(n: nat, s: Sys, busy: set<nat>, task: map<nat, Log>, ret: map<nat, int>, data: map<nat, Reply>,
                  tb: map<nat, nat>)
    requires Querying(n, n, n, s, busy, task, ret, data, tb) && busy == {}
    ensures s.ph.Query? && s.ph.pending == {} && tb == s.tb
    ensures s.txid >= TXID_START && s.ph.same == Agree(tb, s.txid - 1, n)
  {
    assert Open(s);
    AgreeMeans(tb, s.txid - 1, n);
    assert forall j :: j !in s.ph.pending;
    assert forall j {:trigger j in tb} :: j in tb <==> j in s.tb;
    assert tb == s.tb;
  }

  lemma QueryingAnyWorld(n: nat, k: nat, c: nat, s: Sys, t: Sys, busy: set<nat>, task: map<nat, Log>,
                         ret: map<nat, int>,
                         data: map<nat, Reply>, tb: map<nat, nat>)
    requires Querying(n, k, c, s, busy, task, ret, data, tb)
    requires Wf(t) && |t.parts| == n && t.ph == s.ph && t.txid == s.txid && t.tb == s.tb
    ensures Querying(n, k, c, t, busy, task, ret, data, tb)
  {
    assert Open(s);
    assert QueryTally(n, c, t, ret, data, tb);
    assert QueryingOf(n, k, c, t, busy, task, ret, data, tb);
  }

  // ---- reads ----

  lemma ReadStarts(s: Sys, cmd: seq<string>, t: Sys)
    requires Wf(s) && s.ph.Idle? && s.serving && IsRead(cmd) && t == s.(ph := Read(cmd, 0))
    ensures Begins(ReadGoal(cmd), s, StartRead(cmd), t)
  {
    BeginsIs(ReadGoal(cmd), s, StartRead(cmd), t);
  }

  predicate Answered(ret: map<nat, int>, data: map<nat, Reply>, id: nat) {
    id in ret && ret[id] == KV_OK && id in data && data[id] != NoReply
  }

  /** Where a read is after participant `id` has been asked. */
  function ReadPhase(cmd: seq<string>, id: nat, ret: map<nat, int>, data: map<nat, Reply>): Phase {
    if Answered(ret, data, id) then Idle(data[id]) else Read(cmd, id + 1)
  }

  lemma StepRead(s: Sys, d: Fate, s1: Sys, r: Option<Reply>) returns (t: Sys)
    requires Wf(s) && s.ph.Read? && s.ph.next < |s.parts|
    requires (s1, r) == Send(s, s.ph.next, Log(SUPER_TXID, LOG_COMMIT, Command(s.ph.cmd)), d)
    ensures Moves(s, Exchange(s.ph.next, d), t) && Wf(t) && |t.parts| == |s.parts|
    ensures t == if s.pst[s.ph.next] != P_WORKING then s.(ph := Read(s.ph.cmd, s.ph.next + 1)) else Shown(s, s1, r)
  {
    t := ReadExchange(s, s.ph.next, d);
    MovesIs(s, Exchange(s.ph.next, d), t);
  }

  lemma ReadResult(s: Sys, d: Fate, s2: Sys, ret: map<nat, int>, ret2: map<nat, int>,
                   data: map<nat, Reply>, data2: map<nat, Reply>) returns (t: Sys)
    requires Wf(s) && s.ph.Read? && s.ph.next < |s.parts|
    requires PWorked(s, s2, s.ph.next, Log(SUPER_TXID, LOG_COMMIT, Command(s.ph.cmd)), d, ret, ret2, data, data2)
    ensures Wf(t) && |t.parts| == |s.parts| && Moves(s, Exchange(s.ph.next, d), t)
    ensures t == s2.(ph := ReadPhase(s.ph.cmd, s.ph.next, ret2, data2))
  {
    assert Open(s);
    var (s1, r) := Send(s, s.ph.next, Log(SUPER_TXID, LOG_COMMIT, Command(s.ph.cmd)), d);
    t := StepRead(s, d, s1, r);
  }

  lemma ReadEnds(s: Sys, t: Sys)
    requires Wf(s) && s.ph.Read? && s.ph.next >= |s.parts| && t == s.(ph := Idle(ErrorReply))
    ensures Moves(s, Advance, t)
  {
    MovesIs(s, Advance, t);
  }

  // ---- the steps of a recovery ----

  function Recalled(p: PState): PState {
    if p == P_TEMP || p == P_WORKING then P_RECOVERY else p
  }

  lemma RecoveryStarts(s: Sys, low: nat, t: Sys)
    requires Wf(s) && Enabled(s, StartRecovery(low)) && Wf(t)
    requires t == s.(pst := t.pst, tb := map[], serving := false, restarted := false,
                     ph := Query(low, Ids(|s.parts|), true))
    requires forall i {:trigger t.pst[i]} :: 0 <= i < |s.pst| ==> t.pst[i] == Recalled(s.pst[i])
    ensures Begins(RecoveryGoal, s, StartRecovery(low), t)
  {
    assert t.pst == Step(s, StartRecovery(low)).pst;
    assert InRecovery(s, t);
    BeginsIs(RecoveryGoal, s, StartRecovery(low), t);
  }

  lemma QueryEnds(s: Sys, t: Sys)
    requires Wf(s) && s.ph.Query? && s.ph.pending == {} && !s.ph.same
    requires t == s.(ph := Pick(Least(s.tb, s.ph.low, |s.parts|) + 1))
    ensures Moves(s, Advance, t)
  {
    MovesIs(s, Advance, t);
  }

  lemma PickMoves(s: Sys, leader: Option<nat>, high: nat, t: Sys)
    requires Wf(s) && s.ph.Pick? && s.txid > 0 && Leader(s.tb, s.txid - 1, |s.parts|) == (leader, high)
    requires t == match leader
                  case None => s.(ph := Refill(TXID_START, 0))
                  case Some(l) => if l < |s.pst| then s.(pst := s.pst[l := P_WORKING], tb := s.tb - {l},
                                                         ph := Ask(l, s.ph.low, high)) else s
    ensures Moves(s, Advance, t) && (leader.Some? ==> leader.value < |s.parts| && leader.value in s.tb)
  {
    LeaderFacts(s.tb, s.txid - 1, |s.parts|);
    MovesIs(s, Advance, t);
  }

  /** Where a recovery is after the leader has been asked. */
  function AskPhase(leader: nat, low: nat, high: nat, rc: Reply): Phase {
    if rc.LogReply? then Push(leader, low, high, rc.l, 0) else Pick(low)
  }

  lemma StepAsk(s: Sys, d: Fate, s1: Sys, r: Option<Reply>) returns (t: Sys)
    requires Wf(s) && s.ph.Ask? && s.ph.leader < |s.parts| && s.ph.low <= s.ph.high
    requires (s1, r) == Send(s, s.ph.leader, Log(ASK_DATA_TXID, LOG_COMMIT, Number(s.ph.low)), d)
    ensures Moves(s, Exchange(s.ph.leader, d), t) && Wf(t) && |t.parts| == |s.parts|
    ensures s.pst[s.ph.leader] != P_WORKING ==> t == s.(ph := Pick(s.ph.low))
    ensures s.pst[s.ph.leader] == P_WORKING ==>
      var rc := if r.Some? then r.value else NoReply;
      var heard := rc.LogReply? && rc.l.id == s.txid;
      t == s1.(log := if heard then s.log[s.txid := rc.l] else s.log, txid := if heard then s.txid + 1 else s.txid,
               ph := AskPhase(s.ph.leader, s.ph.low, s.ph.high, rc))
  {
    t := AskExchange(s, d);
    AskMoves(s, d);
  }

  lemma AskMoves(s: Sys, d: Fate)
    requires Wf(s) && s.ph.Ask? && s.ph.leader < |s.parts| && s.ph.low <= s.ph.high
    ensures Moves(s, Exchange(s.ph.leader, d), AskExchange(s, d))
  {
    MovesIs(s, Exchange(s.ph.leader, d), AskExchange(s, d));
  }

  lemma AskResult(s: Sys, d: Fate, s2: Sys, ret: map<nat, int>, ret2: map<nat, int>,
                  data: map<nat, Reply>, data2: map<nat, Reply>) returns (t: Sys)
    requires Wf(s) && s.ph.Ask? && s.ph.leader < |s.parts| && s.ph.low <= s.ph.high
    requires PWorked(s, s2, s.ph.leader, Log(ASK_DATA_TXID, LOG_COMMIT, Number(s.ph.low)), d, ret, ret2, data, data2)
    ensures Wf(t) && |t.parts| == |s.parts|
    ensures Moves(s, Exchange(s.ph.leader, d), t)
    ensures var rc := if Answered(ret2, data2, s.ph.leader) then data2[s.ph.leader] else NoReply;
      var heard := rc.LogReply? && rc.l.id == s.txid;
      t == s2.(log := if heard then s.log[s.txid := rc.l] else s.log, txid := if heard then s.txid + 1 else s.txid,
               ph := AskPhase(s.ph.leader, s.ph.low, s.ph.high, rc))
  {
    var id, m := s.ph.leader, Log(ASK_DATA_TXID, LOG_COMMIT, Number(s.ph.low));
    var (s1, r) := Send(s, id, m, d);
    PWorkedCase(s, s2, id, m, d, s1, r, ret, ret2, data, data2);
    t := StepAsk(s, d, s1, r);
  }

  /** What a leader answers is the entry it was asked for; the coordinator takes it over. */
  /** The leader, while its link holds, answers with an entry. */
  ghost predicate LeaderReady(s: Sys) {
    && Wf(s) && s.ph.Ask? && s.ph.leader < |s.parts|
    && (s.up[s.ph.leader] ==>
          Answer(s.parts[s.ph.leader], Log(ASK_DATA_TXID, LOG_COMMIT, Number(s.ph.low))).1.LogReply?)
  }

  lemma LawfulReady(n: nat, trace: seq<Action>, s: Sys, W: Master, goal: Goal, op: Sys, fair: bool)
    requires Lawful(n, trace, s, W, goal, op, fair) && s.ph.Ask? && s.ph.low <= s.ph.high
    ensures LeaderReady(s)
  {
    assert Open(s);
    if s.up[s.ph.leader] { LeaderAnswers(s, W); }
  }

  lemma AskMade(s: Sys, d: Fate, s2: Sys, ret: map<nat, int>, ret2: map<nat, int>, data: map<nat, Reply>,
                data2: map<nat, Reply>) returns (rc: Reply, t: Sys)
    requires LeaderReady(s) && s.ph.low <= s.ph.high
    requires PWorked(s, s2, s.ph.leader, Log(ASK_DATA_TXID, LOG_COMMIT, Number(s.ph.low)), d, ret, ret2, data, data2)
    ensures rc == (if Answered(ret2, data2, s.ph.leader) then data2[s.ph.leader] else NoReply)
    ensures rc == NoReply || rc.LogReply?
    ensures Moves(s, Exchange(s.ph.leader, d), t) && Wf(t) && |t.parts| == |s.parts|
    ensures t == s2.(log := if rc.LogReply? && rc.l.id == s.txid then s.log[s.txid := rc.l] else s.log,
                     txid := if rc.LogReply? && rc.l.id == s.txid then s.txid + 1 else s.txid,
                     ph := AskPhase(s.ph.leader, s.ph.low, s.ph.high, rc))
  {
    rc := if Answered(ret2, data2, s.ph.leader) then data2[s.ph.leader] else NoReply;
    t := AskResult(s, d, s2, ret, ret2, data, data2);
    AskAnswered(s, d, s2, ret, ret2, data, data2);
  }

  lemma AskAnswered(s: Sys, d: Fate, s2: Sys, ret: map<nat, int>, ret2: map<nat, int>, data: map<nat, Reply>,
                    data2: map<nat, Reply>)
    requires LeaderReady(s)
    requires PWorked(s, s2, s.ph.leader, Log(ASK_DATA_TXID, LOG_COMMIT, Number(s.ph.low)), d, ret, ret2, data, data2)
    ensures Answered(ret2, data2, s.ph.leader) ==> data2[s.ph.leader].LogReply?
  {
    assert Open(s);
  }

  lemma LawfulTabled(n: nat, trace: seq<Action>, s: Sys, W: Master, goal: Goal, op: Sys, fair: bool)
    requires Lawful(n, trace, s, W, goal, op, fair) && s.ph.Push? && Wf(s) && s.ph.next < |s.parts|
    ensures Tabled(s, s.ph.next)
  {
    assert Open(s);
    assert PhasePart(s, s.ph.next);
  }

  lemma LawfulLeader(n: nat, trace: seq<Action>, s: Sys, W: Master, goal: Goal, op: Sys, fair: bool)
    requires Lawful(n, trace, s, W, goal, op, fair)
    ensures s.txid >= TXID_START
    ensures s.ph.Refill? && s.ph.tid < s.txid ==> s.ph.tid in s.log
    ensures s.ph.Refill? && s.ph.tid >= s.txid ==> s.ph.next == 0
    ensures Recovering(s.ph) && !s.ph.Query? ==> TableIds(s)
  {
    assert Open(s);
    assert s.ph.Refill? && TXID_START <= s.ph.tid < s.txid ==> s.ph.tid in s.log;
  }

  lemma AskEnds(s: Sys, t: Sys)
    requires Wf(s) && s.ph.Ask? && s.ph.low > s.ph.high && t == s.(ph := Pick(s.ph.low))
    ensures Moves(s, Advance, t)
  {
    MovesIs(s, Advance, t);
  }

  /** Handing the entry to the next participant is one step, and the table does not grow. */
  lemma PushMoves(s: Sys, d: Fate, w: Sys, ret: map<nat, int>, ret2: map<nat, int>, data: map<nat, Reply>,
                  data2: map<nat, Reply>) returns (t: Sys)
    requires s.ph.Push? && Wf(s) && s.ph.next < |s.parts| && Tabled(s, s.ph.next)
    requires PRecovered(s, w, s.ph.next, s.ph.entry, d, ret, ret2, data, data2)
    ensures Moves(s, Exchange(s.ph.next, d), t)
    ensures t == w.(ph := Push(s.ph.leader, s.ph.low, s.ph.high, s.ph.entry, s.ph.next + 1)) && |t.tb| <= |s.tb|
    ensures t.txid == s.txid
    ensures Wf(t) && |t.parts| == |s.parts|
  {
    assert Open(s);
    var id, e := s.ph.next, s.ph.entry;
    TableShrinks(s, id, e, d);
    t := w.(ph := Push(s.ph.leader, s.ph.low, s.ph.high, e, id + 1));
    StepPush(s, d);
  }

  lemma StepPush(s: Sys, d: Fate)
    requires Wf(s) && s.ph.Push? && s.ph.next < |s.parts|
    ensures Moves(s, Exchange(s.ph.next, d),
                  Deliver(s, s.ph.next, s.ph.entry,
                          d).(ph := Push(s.ph.leader, s.ph.low, s.ph.high, s.ph.entry, s.ph.next + 1)))
  {
    MovesIs(s, Exchange(s.ph.next, d),
            Deliver(s, s.ph.next, s.ph.entry,
                    d).(ph := Push(s.ph.leader, s.ph.low, s.ph.high, s.ph.entry, s.ph.next + 1)));
  }

  lemma PushEnds(s: Sys, t: Sys)
    requires Wf(s) && s.ph.Push? && s.ph.next >= |s.parts| && t == s.(ph := Ask(s.ph.leader, s.ph.low + 1, s.ph.high))
    ensures Moves(s, Advance, t)
  {
    MovesIs(s, Advance, t);
  }

  lemma RefillMoves(s: Sys, d: Fate, w: Sys, ret: map<nat, int>, ret2: map<nat, int>, data: map<nat, Reply>,
                    data2: map<nat, Reply>) returns (t: Sys)
    requires Wf(s) && s.ph.Refill? && s.ph.next < |s.parts| && s.ph.tid < s.txid && s.ph.tid in s.log
    requires PRecovered(s, w, s.ph.next, s.log[s.ph.tid], d, ret, ret2, data, data2)
    ensures Moves(s, Exchange(s.ph.next, d), t)
    ensures t == w.(ph := Refill(s.ph.tid, s.ph.next + 1)) && t.txid == s.txid && t.log == s.log && Wf(t)
    ensures |t.parts| == |s.parts|
  {
    assert Open(s);
    DeliverKeeps(s, s.ph.next, s.log[s.ph.tid], d);
    t := w.(ph := Refill(s.ph.tid, s.ph.next + 1));
    StepRefill(s, d);
  }

  lemma StepRefill(s: Sys, d: Fate)
    requires Wf(s) && s.ph.Refill? && s.ph.next < |s.parts| && s.ph.tid < s.txid && s.ph.tid in s.log
    ensures Moves(s, Exchange(s.ph.next, d),
                  Deliver(s, s.ph.next, s.log[s.ph.tid], d).(ph := Refill(s.ph.tid, s.ph.next + 1)))
  {
    MovesIs(s, Exchange(s.ph.next, d),
            Deliver(s, s.ph.next, s.log[s.ph.tid], d).(ph := Refill(s.ph.tid, s.ph.next + 1)));
  }

  lemma RefillGoesOn(s: Sys, t: Sys)
    requires Wf(s) && s.ph.Refill? && s.ph.next >= |s.parts| && s.ph.tid < s.txid
    requires t == s.(ph := Refill(s.ph.tid + 1, 0))
    ensures Moves(s, Advance, t)
  {
    MovesIs(s, Advance, t);
  }

  lemma FinishMoves(s: Sys, t: Sys)
    requires Wf(s) && ((s.ph.Query? && s.ph.pending == {} && s.ph.same) || (s.ph.Refill? && s.ph.tid >= s.txid))
    requires Wf(t) && |t.parts| == |s.parts| && t == s.(pst := t.pst, serving := true, ph := Idle(NoReply))
    requires forall i {:trigger t.pst[i]} :: 0 <= i < |s.pst| ==>
               t.pst[i] == if i in s.tb && s.tb[i] + 1 == s.txid then P_WORKING else s.pst[i]
    ensures Moves(s, Advance, t)
  {
    assert t.pst == Finish(s).pst;
    MovesIs(s, Advance, t);
  }
}

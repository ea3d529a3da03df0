/** What a recovery achieves, and that it comes to an end. */
module Recoveries {
  import opened Replica
  import opened Options
  import opened Protocol
  import opened Invariant
  import opened RecoveryInvariant
  import opened Agreement
  import opened Requests

  // ---- the end of a recovery ----

  /** `log` still has the first `n` transactions of `log0`. */
  ghost predicate Keeps(log0: map<nat, Log>, n: nat, log: map<nat, Log>) {
    forall t {:trigger t in log} :: TXID_START <= t < n && t in log0 ==> t in log && log[t] == log0[t]
  }

  ghost predicate Settled(s: Sys, i: nat, agreed: bool)
    requires Wf(s) && i < |s.parts|
  {
    && (s.pst[i] == P_WAITING || s.pst[i] == P_WORKING)
    && (Live(s, i) ==> s.parts[i].txid == s.txid)
    && (Live(s, i) && agreed ==>
          s.parts[i].kv == Replay(s.log, s.txid) && Compatible(s.parts[i].log, s.txid, s.log, s.txid))
  }

  /** The recovery that began in `s0` is over in `s`: every participant waits or works, whoever works and
      has its link still has reached the coordinator's transaction id (and, if the logs are in agreement, has
      exactly its log), and the coordinator has lost nothing. */
  ghost predicate RecoveryMeans(s0: Sys, s: Sys, agreed: bool)
    requires Wf(s)
  {
    && s.ph.Idle? && s.serving && !s.restarted && s.txid >= s0.txid && Keeps(s0.log, s0.txid, s.log)
    && forall i {:trigger Settled(s, i, agreed)} :: 0 <= i < |s.parts| ==> Settled(s, i, agreed)
  }

  ghost predicate InRecovery(s0: Sys, s: Sys) {
    Recovering(s.ph) && s.txid >= s0.txid && Keeps(s0.log, s0.txid, s.log)
  }

  lemma FinishSettles(s0: Sys, s: Sys, W: Master)
    requires InRecovery(s0, s) && Base(s, W) && !s.restarted
    requires forall i {:trigger Ready(s, i)} :: 0 <= i < |s.parts| ==> Ready(s, i)
    ensures RecoveryMeans(s0, Finish(s), W.Some?)
  {
    var s2 := Finish(s);
    FinishInv(s, W);
    forall i | 0 <= i < |s2.parts| ensures Settled(s2, i, W.Some?) {
      assert PhasePart(s2, i);
      assert s2.pst[i] == P_WAITING || s2.pst[i] == P_WORKING;
      if Live(s2, i) && W.Some? { CurrentAgrees(s2, W, i); }
    }
  }

  lemma CurrentAgrees(s: Sys, W: Master, i: nat)
    requires Base(s, W) && W.Some? && i < |s.parts| && s.parts[i].txid == s.txid
    ensures s.parts[i].kv == Replay(s.log, s.txid) && Compatible(s.parts[i].log, s.txid, s.log, s.txid)
  {
    SameId(s, W, i);
  }

  lemma RecoveryExchange(s0: Sys, s: Sys, W: Master, id: nat, fate: Fate)
    requires Inv(s, W) && InRecovery(s0, s) && id < |s.parts|
    ensures InRecovery(s0, ExchangeStep(s, id, fate))
  {
    match s.ph
    case Ask(leader, low, high) => if id == leader && low <= high { AskKeeps(s, fate); }
    case Push(_, _, _, e, next) => if id == next { DeliverKeeps(s, id, e, fate); }
    case Refill(tid, next) =>
      if id == next && tid < s.txid {
        assert tid in s.log;
        DeliverKeeps(s, id, s.log[tid], fate);
      }
    case Query(_, pending, _) => if id in pending { QueryKeeps(s, id, fate); }
    case _ =>
  }

  lemma QueryKeeps(s: Sys, id: nat, fate: Fate)
    requires Wf(s) && s.ph.Query? && id < |s.parts|
    ensures var s2 := QueryExchange(s, id, fate); s2.txid == s.txid && s2.log == s.log && s2.ph.Query?
  {
    SendShape(s, id, Log(RECOVERY_TXID, LOG_PRE, NoEvent), fate);
  }

  lemma DeliverKeeps(s: Sys, id: nat, e: Log, fate: Fate)
    requires Wf(s) && id < |s.parts|
    ensures var s2 := Deliver(s, id, e, fate); s2.txid == s.txid && s2.log == s.log
  {
    SendShape(s, id, e, fate);
  }

  lemma AskKeeps(s: Sys, fate: Fate)
    requires Wf(s) && s.ph.Ask? && s.ph.leader < |s.parts|
    ensures var s2 := AskExchange(s, fate);
      || (s2.txid == s.txid && s2.log == s.log)
      || (s2.txid == s.txid + 1 && s.txid in s2.log && s2.log == s.log[s.txid := s2.log[s.txid]])
    ensures Recovering(AskExchange(s, fate).ph)
  {
    SendShape(s, s.ph.leader, Log(ASK_DATA_TXID, LOG_COMMIT, Number(s.ph.low)), fate);
  }

  lemma RecoveryAdvance(s0: Sys, s: Sys, W: Master)
    requires Inv(s, W) && InRecovery(s0, s)
    ensures InRecovery(s0, AdvanceStep(s)) || RecoveryMeans(s0, AdvanceStep(s), W.Some?)
  {
    if (s.ph.Query? && s.ph.pending == {} && s.ph.same) || (s.ph.Refill? && s.ph.tid >= s.txid) {
      forall i | 0 <= i < |s.parts| ensures Ready(s, i) {
        assert PhasePart(s, i);
      }
      FinishSettles(s0, s, W);
    } else if s.ph.Pick? {
      LeaderFacts(s.tb, s.txid - 1, |s.parts|);
    }
  }

  lemma RecoveryStep(s0: Sys, s: Sys, W: Master, a: Action)
    requires Inv(s, W) && InRecovery(s0, s) && Enabled(s, a) && a != Restart
    ensures InRecovery(s0, Step(s, a)) || RecoveryMeans(s0, Step(s, a), W.Some?)
  {
    match a
    case Exchange(id, fate) => RecoveryExchange(s0, s, W, id, fate);
    case Advance => RecoveryAdvance(s0, s, W);
    case _ =>
  }

  lemma {:induction false} RecoveryRuns(s0: Sys, s: Sys, W: Master, run: seq<Action>)
    requires Inv(s, W) && Serving(s, run) && CanRun(s, run) && (InRecovery(s0, s) || RecoveryMeans(s0, s, W.Some?))
    ensures RecoveryMeans(s0, Run(s, run), W.Some?)
    decreases |run|
  {
    if !s.ph.Idle? {
      RecoveryStep(s0, s, W, run[0]);
      var W2 := StepInv(s, W, run[0]);
      RecoveryRuns(s0, Step(s, run[0]), W2, run[1..]);
    }
  }

  /** After any run, whichever links fail during the recovery. */
  lemma {:induction false} RecoveryOutcome(n: nat, before: seq<Action>, low: nat, run: seq<Action>)
    requires CanRun(Init(n), before) && Enabled(Run(Init(n), before), StartRecovery(low))
    requires Serving(Step(Run(Init(n), before), StartRecovery(low)), run)
    ensures var s0 := Run(Init(n), before);
      && CanRun(Step(s0, StartRecovery(low)), run)
      && RecoveryMeans(s0, Run(Step(s0, StartRecovery(low)), run), Guarded(Init(n), before))
  {
    var s0 := Run(Init(n), before);
    var s := Step(s0, StartRecovery(low));
    InitInv(n);
    var W := RunInv(Init(n), Some(map[]), before);
    StartRecoveryInv(s0, W, low);
    ServingRuns(s, run);
    RecoveryRuns(s0, s, W, run);
  }

  // ---- without failures the longest log wins ----

  /** Participant `i` takes part in a recovery that starts in `s`. */
  predicate Reached(s: Sys, i: nat)
    requires Wf(s) && i < |s.parts|
  {
    s.pst[i] == P_TEMP || s.pst[i] == P_WORKING
  }

  /** The greatest transaction id among the coordinator and the first `n` participants reached. */
  function Longest(s: Sys, n: nat): (m: nat)
    requires Wf(s) && n <= |s.parts|
    ensures m >= s.txid && forall i {:trigger s.parts[i]} :: 0 <= i < n && Reached(s, i) ==> s.parts[i].txid <= m
    ensures m == s.txid || exists i :: 0 <= i < n && Reached(s, i) && s.parts[i].txid == m
  {
    if n == 0 then s.txid
    else
      var m := Longest(s, n - 1);
      if Reached(s, n - 1) && s.parts[n - 1].txid > m then s.parts[n - 1].txid else m
  }

  /** No link fails and nobody crashes. */
  predicate Smooth(run: seq<Action>) {
    forall k :: 0 <= k < |run| ==> run[k].Advance? || (run[k].Exchange? && run[k].fate == Heard)
  }

  ghost predicate CalmPart(s0: Sys, top: nat, s: Sys, i: nat)
    requires Wf(s0) && Wf(s) && i < |s0.parts| == |s.parts|
  {
    if Reached(s0, i) then s.pst[i] != P_WAITING && s.up[i] && s.parts[i].txid <= top
    else s.pst[i] == P_WAITING && s.parts[i] == s0.parts[i]
  }

  ghost predicate Holder(s0: Sys, top: nat, s: Sys, i: nat)
    requires Wf(s0) && Wf(s) && i < |s0.parts| == |s.parts|
  {
    Reached(s0, i) && s.parts[i].txid == top
  }

  ghost predicate Calm(s0: Sys, top: nat, s: Sys)
    requires Wf(s0) && Wf(s) && |s0.parts| == |s.parts|
  {
    && s.txid <= top
    && (forall i {:trigger CalmPart(s0, top, s, i)} :: 0 <= i < |s.parts| ==> CalmPart(s0, top, s, i))
    && (s.txid == top || exists i {:trigger Holder(s0, top, s, i)} :: 0 <= i < |s.parts| && Holder(s0, top, s, i))
  }

  /** Only the coordinator's side changes, and its id does not. */
  lemma CalmSame(s0: Sys, top: nat, s: Sys, s2: Sys)
    requires Wf(s0) && Wf(s) && Wf(s2) && |s0.parts| == |s.parts| == |s2.parts| && Calm(s0, top, s)
    requires s2.parts == s.parts && s2.up == s.up && s.txid <= s2.txid <= top
    requires forall i {:trigger s2.pst[i]} :: 0 <= i < |s.pst| ==> (s2.pst[i] == P_WAITING <==> s.pst[i] == P_WAITING)
    ensures Calm(s0, top, s2)
  {
    forall i | 0 <= i < |s.parts| ensures CalmPart(s0, top, s2, i) {
      assert CalmPart(s0, top, s, i);
      assert s2.pst[i] == s2.pst[i];
    }
    if s.txid != top {
      var i :| 0 <= i < |s.parts| && Holder(s0, top, s, i);
      assert Holder(s0, top, s2, i);
    }
  }

  /** One participant that takes part is handed an entry the coordinator has. */
  lemma CalmOne(s0: Sys, top: nat, s: Sys, s2: Sys, id: nat)
    requires Wf(s0) && Wf(s) && Wf(s2) && |s0.parts| == |s.parts| == |s2.parts| && id < |s.parts| && Calm(s0, top, s)
    requires s2.up == s.up && s2.pst == s.pst && s2.txid == s.txid && s2.parts == s.parts[id := s2.parts[id]]
    requires s.pst[id] != P_WAITING && s.parts[id].txid < s2.parts[id].txid <= s.txid
    ensures Calm(s0, top, s2)
  {
    forall i | 0 <= i < |s.parts| ensures CalmPart(s0, top, s2, i) {
      assert CalmPart(s0, top, s, i);
    }
    if s.txid != top {
      var i :| 0 <= i < |s.parts| && Holder(s0, top, s, i);
      assert Holder(s0, top, s2, i);
    }
  }

  lemma CalmDeliver(s0: Sys, top: nat, s: Sys, W: Master, id: nat, e: Log)
    requires Wf(s0) && Suits(s, W, id, e) && |s0.parts| == |s.parts| && Calm(s0, top, s)
    ensures Calm(s0, top, Deliver(s, id, e, Heard))
  {
    var s2 := Deliver(s, id, e, Heard);
    if s.pst[id] == P_RECOVERY && e.id == s.tb[id] + 1 {
      assert CalmPart(s0, top, s, id) && PartInv(s, W, id);
      DeliverApplied(s, W, id, e);
      SendCases(s, id, e, Heard);
      ExecuteAccepts(s.parts[id].kv, e.event);
      CalmOne(s0, top, s, s2, id);
    } else {
      CalmSame(s0, top, s, s2);
    }
  }

  lemma CalmQuery(s0: Sys, top: nat, s: Sys, W: Master, id: nat)
    requires Wf(s0) && Inv(s, W) && s.ph.Query? && id in s.ph.pending && id < |s.parts| == |s0.parts|
    requires Calm(s0, top, s)
    ensures Calm(s0, top, QueryExchange(s, id, Heard))
  {
    assert CalmPart(s0, top, s, id) && PartInv(s, W, id);
    SendPeek(s, id, Log(RECOVERY_TXID, LOG_PRE, NoEvent), Heard);
    CalmSame(s0, top, s, QueryExchange(s, id, Heard));
  }

  lemma CalmAsk(s0: Sys, top: nat, s: Sys, W: Master)
    requires Wf(s0) && Inv(s, W) && s.ph.Ask? && s.ph.low <= s.ph.high && |s.parts| == |s0.parts| && Calm(s0, top, s)
    ensures Calm(s0, top, AskExchange(s, Heard))
  {
    var id := s.ph.leader;
    assert CalmPart(s0, top, s, id) && PhasePart(s, id);
    if s.pst[id] == P_WORKING {
      LeaderAnswers(s, W);
      SendPeek(s, id, Log(ASK_DATA_TXID, LOG_COMMIT, Number(s.ph.low)), Heard);
    }
    CalmSame(s0, top, s, AskExchange(s, Heard));
  }

  lemma CalmExchange(s0: Sys, top: nat, s: Sys, W: Master, id: nat)
    requires Wf(s0) && Inv(s, W) && Recovering(s.ph) && id < |s.parts| == |s0.parts| && Calm(s0, top, s)
    ensures Calm(s0, top, ExchangeStep(s, id, Heard))
  {
    assert PhasePart(s, id);
    match s.ph
    case Query(_, pending, _) => if id in pending { CalmQuery(s0, top, s, W, id); }
    case Ask(leader, low, high) => if id == leader && low <= high { CalmAsk(s0, top, s, W); }
    case Push(_, _, _, e, next) =>
      if id == next {
        CalmDeliver(s0, top, s, W, id, e);
        CalmSame(s0, top, Deliver(s, id, e, Heard), ExchangeStep(s, id, Heard));
      }
    case Refill(tid, next) =>
      if id == next && tid < s.txid {
        assert tid in s.log;
        CalmDeliver(s0, top, s, W, id, s.log[tid]);
        CalmSame(s0, top, Deliver(s, id, s.log[tid], Heard), ExchangeStep(s, id, Heard));
      }
    case _ =>
  }

  lemma CalmAdvance(s0: Sys, top: nat, s: Sys, W: Master)
    requires Wf(s0) && Inv(s, W) && Recovering(s.ph) && |s.parts| == |s0.parts| && Calm(s0, top, s)
    ensures Calm(s0, top, AdvanceStep(s))
  {
    var s2 := AdvanceStep(s);
    LeaderFacts(s.tb, s.txid - 1, |s.parts|);
    forall i | 0 <= i < |s.pst| ensures s2.pst[i] == P_WAITING <==> s.pst[i] == P_WAITING {
      assert PhasePart(s, i);
    }
    CalmSame(s0, top, s, s2);
  }

  lemma {:induction false} CalmRuns(s0: Sys, top: nat, s: Sys, W: Master, run: seq<Action>)
    requires Wf(s0) && Inv(s, W) && |s.parts| == |s0.parts| && Serving(s, run) && CanRun(s, run) && Smooth(run)
    requires (InRecovery(s0, s) || RecoveryMeans(s0, s, W.Some?)) && Calm(s0, top, s)
    ensures Calm(s0, top, Run(s, run))
    decreases |run|
  {
    if !s.ph.Idle? {
      match run[0] {
        case Exchange(id, fate) => CalmExchange(s0, top, s, W, id);
        case Advance => CalmAdvance(s0, top, s, W);
      }
      RecoveryStep(s0, s, W, run[0]);
      var W2 := StepInv(s, W, run[0]);
      CalmRuns(s0, top, Step(s, run[0]), W2, run[1..]);
    }
  }

  ghost predicate ReachedHere(s: Sys, i: nat)
    requires Wf(s) && i < |s.parts|
  {
    Reached(s, i) ==> s.up[i]
  }

  /** Whoever is reached has its link. */
  ghost predicate AllLinked(s: Sys)
    requires Wf(s)
  {
    forall i {:trigger ReachedHere(s, i)} :: 0 <= i < |s.parts| ==> ReachedHere(s, i)
  }

  lemma StartCalm(s0: Sys, W: Master, low: nat)
    requires Inv(s0, W) && Enabled(s0, StartRecovery(low)) && AllLinked(s0)
    ensures Calm(s0, Longest(s0, |s0.parts|), Step(s0, StartRecovery(low)))
  {
    var top, s := Longest(s0, |s0.parts|), Step(s0, StartRecovery(low));
    forall i | 0 <= i < |s.parts| ensures CalmPart(s0, top, s, i) {
      assert PhasePart(s0, i) && ReachedHere(s0, i);
      assert s0.parts[i] == s.parts[i];
    }
    if top != s0.txid {
      var i :| 0 <= i < |s0.parts| && Reached(s0, i) && s0.parts[i].txid == top;
      assert Holder(s0, top, s, i);
    }
  }

  ghost predicate AtTop(s0: Sys, top: nat, s: Sys, i: nat)
    requires Wf(s0) && Wf(s) && i < |s0.parts| == |s.parts|
  {
    if Reached(s0, i) then Live(s, i) && s.parts[i].txid == top
    else s.pst[i] == P_WAITING && s.parts[i] == s0.parts[i]
  }

  /** The coordinator and everyone reached are at transaction `top`; whoever was not reached is as it was. */
  ghost predicate AllAt(s0: Sys, top: nat, s: Sys)
    requires Wf(s0) && Wf(s) && |s0.parts| == |s.parts|
  {
    s.txid == top && forall i {:trigger AtTop(s0, top, s, i)} :: 0 <= i < |s.parts| ==> AtTop(s0, top, s, i)
  }

  /** After any run: if every participant reached has its link and no link fails, the recovery brings the
      coordinator and everyone reached to the longest log among them. */
  lemma {:induction false} LongestLogWins(n: nat, before: seq<Action>, low: nat, run: seq<Action>)
    requires CanRun(Init(n), before) && Enabled(Run(Init(n), before), StartRecovery(low))
    requires Serving(Step(Run(Init(n), before), StartRecovery(low)), run) && Smooth(run)
    requires AllLinked(Run(Init(n), before))
    ensures var s0 := Run(Init(n), before);
      CanRun(Step(s0, StartRecovery(low)), run) && AllAt(s0, Longest(s0, n), Run(Step(s0, StartRecovery(low)), run))
  {
    var s0 := Run(Init(n), before);
    var s, top := Step(s0, StartRecovery(low)), Longest(s0, |s0.parts|);
    InitInv(n);
    var W := RunInv(Init(n), Some(map[]), before);
    StartRecoveryInv(s0, W, low);
    ServingRuns(s, run);
    RecoveryRuns(s0, s, W, run);
    StartCalm(s0, W, low);
    CalmRuns(s0, top, s, W, run);
    CalmEnds(s0, top, Run(s, run), W.Some?);
  }

  lemma CalmEnds(s0: Sys, top: nat, s: Sys, agreed: bool)
    requires Wf(s0) && Wf(s) && |s.parts| == |s0.parts| && Calm(s0, top, s) && RecoveryMeans(s0, s, agreed)
    ensures AllAt(s0, top, s)
  {
    forall i | 0 <= i < |s0.parts| ensures AtTop(s0, s.txid, s, i) {
      assert CalmPart(s0, top, s, i) && Settled(s, i, agreed);
    }
    if exists i {:trigger Holder(s0, top, s, i)} :: 0 <= i < |s.parts| && Holder(s0, top, s, i) {
      var i :| 0 <= i < |s.parts| && Holder(s0, top, s, i);
      assert AtTop(s0, s.txid, s, i);
    }
  }

  // ---- termination ----

  /** How much of a recovery is left, to be read lexicographically: the stage; then, while querying, the
      exchanges left; while leaders are followed, the size of the table, whether a leader is active, the
      entries left to ask for and the participants left to hand the entry to; while refilling, the entries
      and the participants left. */
  datatype Rank = Rank(stage: nat, size: nat, active: nat, entries: nat, parts: nat)

  predicate Below(a: Rank, b: Rank) {
    || a.stage < b.stage
    || (a.stage == b.stage && (a.size < b.size
    || (a.size == b.size && (a.active < b.active
    || (a.active == b.active && (a.entries < b.entries
    || (a.entries == b.entries && a.parts < b.parts)))))))
  }

  function RankOf(s: Sys): Rank {
    var n := |s.parts|;
    match s.ph
    case Query(_, pending, _) => Rank(3, |pending|, 0, 0, 0)
    case Pick(_) => Rank(2, |s.tb|, 0, 0, 0)
    case Ask(_, low, high) => Rank(2, |s.tb|, 1, if low <= high then high + 1 - low else 0, n + 2)
    case Push(_, low, high, _, next) =>
      Rank(2, |s.tb|, 1, if low <= high then high + 1 - low else 0, if next <= n then n + 1 - next else 0)
    case Refill(tid, next) =>
      Rank(1, 0, 0, if tid <= s.txid then s.txid - tid else 0, if next <= n then n - next else 0)
    case _ => Rank(0, 0, 0, 0, 0)
  }

  lemma Smaller<T, U>(a: map<T, U>, b: map<T, U>)
    requires a.Keys <= b.Keys
    ensures |a| <= |b| && (a.Keys != b.Keys ==> |a| < |b|)
  {
    SubsetSize(a.Keys, b.Keys);
  }

  lemma {:induction false} SubsetSize<T>(a: set<T>, b: set<T>)
    requires a <= b
    ensures |a| <= |b| && (a != b ==> |a| < |b|)
  {
    assert b == a + (b - a);
    assert |b| == |a| + |b - a|;
    if a != b {
      var x :| x in b - a;
    }
  }

  lemma FewerLeft(tb: map<nat, nat>, id: nat)
    requires id in tb
    ensures |tb - {id}| < |tb|
  {
    assert id !in tb - {id};
    Smaller(tb - {id}, tb);
  }

  /** The table never grows while participants are handed an entry. */
  lemma TableShrinks(s: Sys, id: nat, e: Log, fate: Fate)
    requires Wf(s) && id < |s.parts| && Tabled(s, id)
    ensures Deliver(s, id, e, fate).tb.Keys <= s.tb.Keys && |Deliver(s, id, e, fate).tb| <= |s.tb|
    ensures Deliver(s, id, e, fate).txid == s.txid
  {
    Smaller(Deliver(s, id, e, fate).tb, s.tb);
  }

  /** Every move of the coordinator or of one of its workers in a recovery leaves less to do, in spite of
      the retry with another leader. */
  lemma MoveLeavesLess(s: Sys, W: Master, a: Action)
    requires Inv(s, W) && Recovering(s.ph) && (a.Exchange? || a.Advance?) && Enabled(s, a) && Step(s, a) != s
    ensures Below(RankOf(Step(s, a)), RankOf(s))
  {
    match a
    case Advance => AdvanceLeavesLess(s, W);
    case Exchange(id, fate) => ExchangeLeavesLess(s, W, id, fate);
  }

  lemma ExchangeLeavesLess(s: Sys, W: Master, id: nat, fate: Fate)
    requires Inv(s, W) && Recovering(s.ph) && id < |s.parts| && ExchangeStep(s, id, fate) != s
    ensures Below(RankOf(ExchangeStep(s, id, fate)), RankOf(s))
  {
    assert PhasePart(s, id);
    match s.ph {
      case Query(_, _, _) => QueryLeavesLess(s, id, fate);
      case Push(_, _, _, _, _) => PushLeavesLess(s, fate);
      case Refill(tid, _) =>
        assert tid in s.log;
        RefillLeavesLess(s, fate);
      case Ask(_, _, _) => AskLeavesLess(s, fate);
    }
  }

  lemma QueryLeavesLess(s: Sys, id: nat, fate: Fate)
    requires Wf(s) && s.ph.Query? && id in s.ph.pending && id < |s.parts|
    ensures Below(RankOf(ExchangeStep(s, id, fate)), RankOf(s))
  {
    SubsetSize(s.ph.pending - {id}, s.ph.pending);
  }

  lemma AskLeavesLess(s: Sys, fate: Fate)
    requires Wf(s) && s.ph.Ask? && s.ph.leader < |s.parts| && s.ph.low <= s.ph.high
    ensures Below(RankOf(ExchangeStep(s, s.ph.leader, fate)), RankOf(s))
  {
    AskMovesOn(s, fate);
    assert ExchangeStep(s, s.ph.leader, fate) == AskExchange(s, fate);
  }

  lemma AskMovesOn(s: Sys, fate: Fate)
    requires Wf(s) && s.ph.Ask? && s.ph.leader < |s.parts|
    ensures var s2 := AskExchange(s, fate);
      && s2.tb == s.tb
      && (s2.ph.Pick? || (s2.ph.Push? && s2.ph.low == s.ph.low && s2.ph.high == s.ph.high && s2.ph.next == 0))
  {
    SendShape(s, s.ph.leader, Log(ASK_DATA_TXID, LOG_COMMIT, Number(s.ph.low)), fate);
  }

  lemma PushLeavesLess(s: Sys, fate: Fate)
    requires Wf(s) && s.ph.Push? && s.ph.next < |s.parts| && Tabled(s, s.ph.next)
    ensures Below(RankOf(ExchangeStep(s, s.ph.next, fate)), RankOf(s))
  {
    TableShrinks(s, s.ph.next, s.ph.entry, fate);
  }

  lemma RefillLeavesLess(s: Sys, fate: Fate)
    requires Wf(s) && s.ph.Refill? && s.ph.next < |s.parts| && s.ph.tid < s.txid && s.ph.tid in s.log
    requires Tabled(s, s.ph.next)
    ensures Below(RankOf(ExchangeStep(s, s.ph.next, fate)), RankOf(s))
  {
    TableShrinks(s, s.ph.next, s.log[s.ph.tid], fate);
  }

  lemma AdvanceLeavesLess(s: Sys, W: Master)
    requires Inv(s, W) && Recovering(s.ph) && AdvanceStep(s) != s
    ensures Below(RankOf(AdvanceStep(s)), RankOf(s))
  {
    match s.ph
    case Pick(_) => PickLeavesLess(s);
    case Query(_, _, same) => if !same { assert FinishQuery(s).ph.Pick?; }
    case _ =>
  }

  lemma PickLeavesLess(s: Sys)
    requires Wf(s) && s.ph.Pick? && s.txid >= TXID_START
    ensures Below(RankOf(PickLeader(s)), RankOf(s))
  {
    var (p, high) := Leader(s.tb, s.txid - 1, |s.parts|);
    LeaderTabled(s.tb, s.txid - 1, |s.parts|);
    if p.Some? {
      FewerLeft(s.tb, p.value);
      assert PickLeader(s).tb == s.tb - {p.value} && PickLeader(s).ph == Ask(p.value, s.ph.low, high);
    } else {
      assert PickLeader(s).ph == Refill(TXID_START, 0);
    }
  }

  lemma LeaderTabled(tb: map<nat, nat>, best: nat, n: nat)
    ensures var p := Leader(tb, best, n).0; p.Some? ==> p.value < n && p.value in tb
  {
    LeaderFacts(tb, best, n);
  }

  /** The environment leaves as much to do as there was. */
  lemma CrashLeavesRank(s: Sys, id: nat)
    requires Wf(s) && id < |s.parts|
    ensures RankOf(Lose(s, id)) == RankOf(s)
  {
  }

  lemma QueryMoves(s: Sys, id: nat)
    requires Wf(s) && s.ph.Query? && id in s.ph.pending && id < |s.parts|
    ensures Step(s, Exchange(id, Heard)) != s
  {
    assert id !in QueryExchange(s, id, Heard).ph.pending;
  }

  /** A recovery is never stuck: some move of the coordinator or of a worker is always there to be made. */
  lemma NeverStuck(s: Sys, W: Master) returns (a: Action)
    requires Inv(s, W) && Recovering(s.ph)
    ensures ((a.Exchange? && a.fate == Heard) || a.Advance?) && Enabled(s, a) && Step(s, a) != s
  {
    match s.ph
    case Query(_, pending, _) =>
      if pending == {} {
        a := Advance;
      } else {
        var id :| id in pending;
        a := Exchange(id, Heard);
        QueryMoves(s, id);
      }
    case Pick(_) =>
      a := Advance;
      LeaderFacts(s.tb, s.txid - 1, |s.parts|);
    case Ask(leader, low, high) => a := if low <= high then Exchange(leader, Heard) else Advance;
      assert PhasePart(s, leader);
    case Push(_, _, _, _, next) => a := if next < |s.parts| then Exchange(next, Heard) else Advance;
    case Refill(tid, next) => a := if tid < s.txid && next < |s.parts| then Exchange(next, Heard) else Advance;
  }
}

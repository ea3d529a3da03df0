/** Runs in which the coordinator is not restarted and no executed message goes unheard: nobody gets ahead of the
    coordinator. */
module Mildness {
  import opened Replica
  import opened Options
  import opened Protocol
  import opened Invariant
  import opened RecoveryInvariant
  import opened Agreement
  import opened Requests
  import opened Recoveries
  import opened Durability

  /** No log goes beyond the coordinator's. */
  predicate NobodyAhead(s: Sys) {
    forall i {:trigger s.parts[i]} :: 0 <= i < |s.parts| ==> s.parts[i].txid <= s.txid
  }

  /** The coordinator is not restarted, and no message is executed whose answer is lost. */
  predicate Mild(run: seq<Action>) {
    forall k {:trigger run[k]} :: 0 <= k < |run| ==> MildAction(run[k])
  }

  predicate MildAction(a: Action) {
    a != Restart && (a.Exchange? ==> a.fate != Unheard)
  }

  // ---- nobody gets ahead unheard ----

  /** Participant `i` is not ahead, or has reported the update in progress. */
  ghost predicate TamePart(s: Sys, i: nat)
    requires Wf(s) && i < |s.parts|
  {
    || s.parts[i].txid <= s.txid
    || (s.ph.Commit? && s.parts[i].txid == s.txid + 1 && i in s.ph.rets && s.ph.rets[i] != ErrorReply)
  }

  ghost predicate Tame(s: Sys)
    requires Wf(s)
  {
    forall i {:trigger TamePart(s, i)} :: 0 <= i < |s.parts| ==> TamePart(s, i)
  }

  lemma SameTame(s: Sys, t: Sys)
    requires Wf(s) && Wf(t) && Tame(s) && t.parts == s.parts && t.txid >= s.txid && !s.ph.Commit?
    ensures Tame(t)
  {
    forall i | 0 <= i < |t.parts| ensures TamePart(t, i) {
      assert TamePart(s, i);
    }
  }

  lemma CrashTame(s: Sys, id: nat)
    requires Wf(s) && Tame(s) && id < |s.parts| && s.txid >= TXID_START
    ensures Tame(Lose(s, id))
  {
    forall i | 0 <= i < |s.parts| ensures TamePart(Lose(s, id), i) {
      assert TamePart(s, i);
    }
  }

  lemma CommitTame(s: Sys, W: Master, id: nat, fate: Fate)
    requires Inv(s, W) && Tame(s) && s.ph.Commit? && id in s.ph.pending && id < |s.parts| && fate != Unheard
    ensures Tame(CommitExchange(s, id, fate))
  {
    var t := CommitExchange(s, id, fate);
    if Live(s, id) { CommitAnswer(s, W, id); }
    CommitEffect(s, id, fate);
    SendCases(s, id, CommitRequest(s, s.ph.cmd), fate);
    forall i | 0 <= i < |s.parts| ensures TamePart(t, i) {
      assert TamePart(s, i);
    }
  }

  lemma FinishCommitTame(s: Sys, W: Master)
    requires Inv(s, W) && Tame(s) && s.ph.Commit?
    ensures Tame(FinishCommit(s))
  {
    var t := FinishCommit(s);
    LastSuccessFacts(s.ph.rets, |s.parts|);
    forall i | 0 <= i < |s.parts| ensures TamePart(t, i) {
      assert TamePart(s, i);
    }
  }

  lemma DeliverTame(s: Sys, W: Master, id: nat, e: Log, fate: Fate)
    requires Suits(s, W, id, e) && Tame(s) && !s.ph.Commit?
    ensures Tame(Deliver(s, id, e, fate))
  {
    var t := Deliver(s, id, e, fate);
    DeliverStep(s, W, id, e, fate);
    DeliveredId(s, W, id, e, fate);
    forall i | 0 <= i < |s.parts| ensures TamePart(t, i) {
      assert TamePart(s, i);
      assert t.parts[i] == t.parts[i];
    }
  }

  lemma DeliveredId(s: Sys, W: Master, id: nat, e: Log, fate: Fate)
    requires Suits(s, W, id, e)
    ensures var t := Deliver(s, id, e, fate); t.parts[id] == s.parts[id] || t.parts[id].txid == e.id + 1
  {
    if s.pst[id] == P_RECOVERY && e.id == Entry(s.tb, id) + 1 {
      if s.up[id] { DeliverApplied(s, W, id, e); }
      SendCases(s, id, e, fate);
    }
  }

  lemma VoteTame(s: Sys, W: Master, id: nat, fate: Fate)
    requires Inv(s, W) && Tame(s) && s.ph.Vote? && id < |s.parts|
    ensures Tame(VoteExchange(s, id, fate))
  {
    assert PartInv(s, W, id);
    NoAssertionFails(s.parts[id], VoteRequest(s));
    SendPeek(s, id, VoteRequest(s), fate);
    VoteEffect(s, id, fate);
    SameTame(s, VoteExchange(s, id, fate));
  }

  lemma ReadTame(s: Sys, W: Master, fate: Fate)
    requires Inv(s, W) && Tame(s) && s.ph.Read? && s.ph.next < |s.parts|
    ensures Tame(ReadExchange(s, s.ph.next, fate))
  {
    ReadCases(s, fate);
    SameTame(s, ReadExchange(s, s.ph.next, fate));
  }

  lemma QueryTame(s: Sys, W: Master, id: nat, fate: Fate)
    requires Inv(s, W) && Tame(s) && s.ph.Query? && id < |s.parts|
    ensures Tame(QueryExchange(s, id, fate))
  {
    assert PartInv(s, W, id);
    QueryCases(s, id, fate);
    SameTame(s, QueryExchange(s, id, fate));
  }

  lemma HandTame(s: Sys, W: Master, id: nat, fate: Fate)
    requires Inv(s, W) && Tame(s) && (s.ph.Push? || (s.ph.Refill? && s.ph.tid < s.txid)) && id == s.ph.next < |s.parts|
    ensures Tame(ExchangeStep(s, id, fate))
  {
    assert PhasePart(s, id);
    if s.ph.Refill? { assert s.ph.tid in s.log; }
    var e := if s.ph.Push? then s.ph.entry else s.log[s.ph.tid];
    DeliverTame(s, W, id, e, fate);
    DeliverShape(s, id, e, fate);
    SameTame(Deliver(s, id, e, fate), ExchangeStep(s, id, fate));
  }

  lemma DeliverShape(s: Sys, id: nat, e: Log, fate: Fate)
    requires Wf(s) && id < |s.parts|
    ensures var t := Deliver(s, id, e, fate); t.ph == s.ph && t.txid == s.txid && t.restarted == s.restarted
  {
    SendShape(s, id, e, fate);
  }

  lemma ExchangeTame(s: Sys, W: Master, id: nat, fate: Fate)
    requires Inv(s, W) && Tame(s) && id < |s.parts| && fate != Unheard
    ensures Tame(ExchangeStep(s, id, fate))
  {
    match s.ph
    case Vote(_, pending, _) => if id in pending { VoteTame(s, W, id, fate); }
    case Commit(_, pending, _) => if id in pending { CommitTame(s, W, id, fate); }
    case Read(_, next) => if id == next { ReadTame(s, W, fate); }
    case Query(_, pending, _) => if id in pending { QueryTame(s, W, id, fate); }
    case Ask(leader, low, high) => if id == leader && low <= high { AskTame(s, W, fate); }
    case Push(_, _, _, _, next) => if id == next { HandTame(s, W, id, fate); }
    case Refill(tid, next) => if id == next && tid < s.txid { HandTame(s, W, id, fate); }
    case _ =>
  }

  lemma AskTame(s: Sys, W: Master, fate: Fate)
    requires Inv(s, W) && Tame(s) && s.ph.Ask? && s.ph.low <= s.ph.high
    ensures Tame(AskExchange(s, fate))
  {
    var id, m := s.ph.leader, Log(ASK_DATA_TXID, LOG_COMMIT, Number(s.ph.low));
    assert PartInv(s, W, id);
    NoAssertionFails(s.parts[id], m);
    SendPeek(s, id, m, fate);
    AskKeeps(s, fate);
    SameTame(s, AskExchange(s, fate));
  }

  lemma StepTame(s: Sys, W: Master, a: Action)
    requires Inv(s, W) && Tame(s) && Enabled(s, a) && MildAction(a)
    ensures Tame(Step(s, a))
  {
    match a
    case Exchange(id, fate) => ExchangeTame(s, W, id, fate);
    case Advance =>
      if s.ph.Commit? {
        if s.ph.pending == {} { FinishCommitTame(s, W); }
      } else {
        AdvanceCases(s);
        SameTame(s, AdvanceStep(s));
      }
    case Crash(id) => CrashTame(s, id);
    case Reconnect(id) => ReconnectTame(s, id);
    case StartUpdate(_) => SameTame(s, Step(s, a));
    case StartRead(_) => SameTame(s, Step(s, a));
    case StartRecovery(_) => SameTame(s, Step(s, a));
  }

  lemma ReconnectTame(s: Sys, id: nat)
    requires Wf(s) && Tame(s) && Enabled(s, Reconnect(id))
    ensures Tame(Step(s, Reconnect(id)))
  {
    forall i | 0 <= i < |s.parts| ensures TamePart(Step(s, Reconnect(id)), i) {
      assert TamePart(s, i);
    }
  }

  lemma {:induction false} RunTame(s: Sys, W: Master, run: seq<Action>)
    requires Inv(s, W) && Tame(s) && CanRun(s, run) && Mild(run)
    ensures Tame(Run(s, run)) && Guarded(s, run)
    decreases |run|
  {
    if run != [] {
      var a := run[0];
      StepTame(s, W, a);
      var W2 := StepInv(s, W, a);
      forall k {:trigger run[1..][k]} | 0 <= k < |run| - 1 ensures MildAction(run[1..][k]) {
        assert run[1..][k] == run[k + 1];
      }
      RunTame(Step(s, a), W2, run[1..]);
      if a.StartUpdate? {
        forall i | 0 <= i < |s.parts| ensures FitsPart(s, a.cmd, i) {
          assert TamePart(s, i);
        }
      }
    }
  }

  lemma EvenIsTame(s: Sys)
    requires Wf(s) && NobodyAhead(s)
    ensures Tame(s)
  {
    forall i | 0 <= i < |s.parts| ensures TamePart(s, i) {
      assert s.parts[i] == s.parts[i];
    }
  }

  /** If nobody is ahead when an update begins and no answer is lost while it is served, an error means that nobody
      has executed it. */
  lemma ErrorMeansNobody(n: nat, before: seq<Action>, cmd: seq<string>, run: seq<Action>, i: nat)
    requires CanRun(Init(n), before) && NobodyAhead(Run(Init(n), before)) && i < n
    requires Enabled(Run(Init(n), before), StartUpdate(cmd))
    requires Serving(Step(Run(Init(n), before), StartUpdate(cmd)), run) && Mild(run)
    requires CanRun(Step(Run(Init(n), before), StartUpdate(cmd)), run)
    requires Run(Step(Run(Init(n), before), StartUpdate(cmd)), run).ph == Idle(ErrorReply)
    ensures var s0 := Run(Init(n), before);
      s0.txid !in Run(Step(s0, StartUpdate(cmd)), run).parts[i].log
  {
    var s0 := Run(Init(n), before);
    var s1 := Step(s0, StartUpdate(cmd));
    InitInv(n);
    var W := RunInv(Init(n), Some(map[]), before);
    EvenIsTame(s0);
    StepTame(s0, W, StartUpdate(cmd));
    var W1 := StepInv(s0, W, StartUpdate(cmd));
    RunTame(s1, W1, run);
    var W2 := RunInv(s1, W1, run);
    var s := Run(s1, run);
    UpdateReply(n, before, cmd, run);
    assert TamePart(s, i) && PartInv(s, W2, i);
  }
}

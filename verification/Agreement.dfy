/** The invariant holds in every run, and with it the shape of every log and the absence of failed presence
    assertions; and agreement, in every run whose updates begin where they fit. */
module Agreement {
  import opened Replica
  import opened Options
  import opened Protocol
  import opened Invariant
  import opened RecoveryInvariant

  lemma RoundInv(s: Sys, W: Master, id: nat, fate: Fate) returns (W2: Master)
    requires Inv(s, W) && id < |s.parts| && !Recovering(s.ph)
    ensures Inv(ExchangeStep(s, id, fate), W2) && W2.Some? == W.Some?
  {
    W2 := W;
    match s.ph
    case Vote(_, pending, _) => if id in pending { VoteInv(s, W, id, fate); }
    case Commit(_, pending, _) => if id in pending { W2 := CommitInv(s, W, id, fate); }
    case Read(_, next) => if id == next { ReadInv(s, W, fate); }
    case _ =>
  }

  lemma RecoveringInv(s: Sys, W: Master, id: nat, fate: Fate)
    requires Inv(s, W) && id < |s.parts| && Recovering(s.ph)
    ensures Inv(ExchangeStep(s, id, fate), W)
  {
    match s.ph
    case Query(_, pending, _) => if id in pending { QueryInv(s, W, id, fate); }
    case Pick(_) =>
    case Ask(leader, low, high) => if id == leader && low <= high { AskInv(s, W, fate); }
    case Push(_, _, _, _, next) => if id == next { PushInv(s, W, fate); }
    case Refill(tid, next) => if id == next && tid < s.txid { RefillInv(s, W, fate); }
  }

  lemma ExchangeInv(s: Sys, W: Master, id: nat, fate: Fate) returns (W2: Master)
    requires Inv(s, W) && id < |s.parts|
    ensures Inv(ExchangeStep(s, id, fate), W2) && W2.Some? == W.Some?
  {
    if Recovering(s.ph) {
      RecoveringInv(s, W, id, fate);
      W2 := W;
    } else {
      W2 := RoundInv(s, W, id, fate);
    }
  }

  lemma AdvanceInv(s: Sys, W: Master) returns (W2: Master)
    requires Inv(s, W)
    ensures Inv(AdvanceStep(s), W2) && W2.Some? == W.Some?
  {
    W2 := W;
    match s.ph
    case Vote(_, pending, _) => if pending == {} { FinishVoteInv(s, W); }
    case Commit(_, pending, _) => if pending == {} { W2 := FinishCommitInv(s, W); }
    case Read(_, _) => ReadEndInv(s, W);
    case Query(_, pending, _) => if pending == {} { FinishQueryInv(s, W); }
    case Pick(_) => PickInv(s, W);
    case Ask(_, low, high) => if low > high { AskEndInv(s, W); }
    case Push(_, _, _, _, next) => if next >= |s.parts| { PushEndInv(s, W); }
    case Refill(_, _) => RefillAdvanceInv(s, W);
    case _ =>
  }

  /** Every step keeps the invariant.  The log of all transactions is given up only where an update begins that
      does not fit. */
  lemma StepInv(s: Sys, W: Master, a: Action) returns (W2: Master)
    requires Inv(s, W) && Enabled(s, a)
    ensures Inv(Step(s, a), W2) && (W2.Some? <==> W.Some? && Fitting(s, a))
  {
    W2 := W;
    match a
    case StartUpdate(cmd) =>
      if W.Some? && !Fits(s, cmd) {
        WithoutMaster(s, W);
        W2 := None;
      }
      StartUpdateInv(s, W2, cmd);
    case StartRead(cmd) => StartReadInv(s, W, cmd);
    case StartRecovery(low) => StartRecoveryInv(s, W, low);
    case Exchange(id, fate) => W2 := ExchangeInv(s, W, id, fate);
    case Advance => W2 := AdvanceInv(s, W);
    case Crash(id) => CrashInv(s, W, id);
    case Reconnect(id) => ReconnectInv(s, W, id);
    case Restart => RestartInv(s, W);
  }

  lemma {:induction false} RunInv(s: Sys, W: Master, run: seq<Action>) returns (W2: Master)
    requires Inv(s, W) && CanRun(s, run)
    ensures Inv(Run(s, run), W2) && (W2.Some? <==> W.Some? && Guarded(s, run))
    decreases |run|
  {
    W2 := W;
    if run != [] {
      W2 := StepInv(s, W, run[0]);
      W2 := RunInv(Step(s, run[0]), W2, run[1..]);
    }
  }

  // ---- agreement ----

  /** Two logs tell the same story as far as both go. */
  ghost predicate Compatible(a: map<nat, Log>, n: nat, b: map<nat, Log>, m: nat) {
    forall t {:trigger t in a} {:trigger t in b} :: TXID_START <= t < n && t < m ==> t in a && t in b && a[t] == b[t]
  }

  /** In every run whose updates begin where they fit, with any interleaving of updates, reads, lost messages
      and answers, crashes, reconnections, recoveries and restarts, the logs of any two participants are one a
      prefix of the other, and each is compatible with the coordinator's committed log. */
  lemma {:induction false} LogsAgree(n: nat, run: seq<Action>, i: nat, j: nat)
    requires CanRun(Init(n), run) && Guarded(Init(n), run) && i < n && j < n
    ensures var s := Run(Init(n), run);
      && Compatible(s.parts[i].log, s.parts[i].txid, s.parts[j].log, s.parts[j].txid)
      && Compatible(s.parts[i].log, s.parts[i].txid, s.log, s.txid)
  {
    InitInv(n);
    var W := RunInv(Init(n), Some(map[]), run);
    PairAgrees(Run(Init(n), run), W, i, j);
  }

  lemma PairAgrees(s: Sys, W: Master, i: nat, j: nat)
    requires Base(s, W) && W.Some? && i < |s.parts| && j < |s.parts|
    ensures Compatible(s.parts[i].log, s.parts[i].txid, s.parts[j].log, s.parts[j].txid)
    ensures Compatible(s.parts[i].log, s.parts[i].txid, s.log, s.txid)
  {
    LogCovers(s, W, i);
    LogCovers(s, W, j);
    BothCover(s.parts[i].log, s.parts[i].txid, s.parts[j].log, s.parts[j].txid, W);
    BothCover(s.parts[i].log, s.parts[i].txid, s.log, s.txid, W);
  }

  /** The log has every transaction before `n`, as it is in `W`. */
  ghost predicate Covers(log: map<nat, Log>, n: nat, W: Master) {
    forall t {:trigger t in log} :: TXID_START <= t < n ==> t in log && Agrees(W, t, log[t])
  }

  lemma LogCovers(s: Sys, W: Master, i: nat)
    requires Base(s, W) && i < |s.parts|
    ensures Covers(s.parts[i].log, s.parts[i].txid, W) && Covers(s.log, s.txid, W)
  {
    assert PartInv(s, W, i);
  }

  lemma BothCover(a: map<nat, Log>, n: nat, b: map<nat, Log>, m: nat, W: Master)
    requires W.Some? && Covers(a, n, W) && Covers(b, m, W)
    ensures Compatible(a, n, b, m)
  {
    forall t: nat | TXID_START <= t < n && t < m ensures t in a && t in b && a[t] == b[t] {
      assert t in a && t in b;
    }
  }

  /** In every such run equal transaction ids mean equal logs and equal maps; and the map is the one the
      coordinator's log describes whenever the ids are equal. */
  lemma {:induction false} SameIdSameMap(n: nat, run: seq<Action>, i: nat, j: nat)
    requires CanRun(Init(n), run) && Guarded(Init(n), run) && i < n && j < n
    ensures var s := Run(Init(n), run);
      && (s.parts[i].txid == s.parts[j].txid ==> s.parts[i] == s.parts[j])
      && (s.parts[i].txid == s.txid ==> s.parts[i].kv == Replay(s.log, s.txid))
  {
    InitInv(n);
    var W := RunInv(Init(n), Some(map[]), run);
    var s := Run(Init(n), run);
    if s.parts[i].txid == s.txid { SameId(s, W, i); }
    if s.parts[i].txid == s.parts[j].txid {
      LogsAgree(n, run, i, j);
      assert PartInv(s, W, i) && PartInv(s, W, j);
      SamePart(s.parts[i], s.parts[j]);
    }
  }

  lemma SamePart(p: Part, q: Part)
    requires PartOk(p) && PartOk(q) && p.txid == q.txid && Compatible(p.log, p.txid, q.log, q.txid)
    ensures p == q
  {
    forall t: nat ensures t in p.log <==> t in q.log {}
    forall t: nat | t in p.log ensures t in q.log && p.log[t] == q.log[t] {}
    assert p.log == q.log;
  }

  /** In every run each participant's log has exactly the transactions before its id, all committed, and its
      map is their replay in order; the coordinator's log has every transaction before its id, committed. */
  lemma {:induction false} LogsWellFormed(n: nat, run: seq<Action>, i: nat)
    requires CanRun(Init(n), run) && i < n
    ensures var s := Run(Init(n), run); PartOk(s.parts[i])
    ensures var s := Run(Init(n), run);
      forall t {:trigger t in s.log} :: TXID_START <= t < s.txid ==> t in s.log && EntryOk(s.log[t], t)
  {
    InitInv(n);
    var W := RunInv(Init(n), Some(map[]), run);
    assert PartInv(Run(Init(n), run), W, i);
  }

  /** In every run no presence assertion of a log fails: not the coordinator's, and not a participant's,
      for every message other than a request for data, and for the request for data being made. */
  lemma {:induction false} NoAssertion(n: nat, run: seq<Action>, i: nat, m: Log)
    requires CanRun(Init(n), run) && i < n
    requires m.id != ASK_DATA_TXID || var s := Run(Init(n), run); s.ph.Ask? && m.event == Number(s.ph.low)
    ensures var s := Run(Init(n), run); !s.ph.Failed? && Answer(s.parts[i], m).1 != AssertionFailure
  {
    InitInv(n);
    var W := RunInv(Init(n), Some(map[]), run);
    var s := Run(Init(n), run);
    assert PartInv(s, W, i);
    NoAssertionFails(s.parts[i], m);
  }

  /** Between recoveries there are none but waiting, working and just connected participants, and a working one
      whose link holds has the coordinator's transaction id; it has its log and its map too, if the updates of
      the run began where they fit. */
  lemma {:induction false} WorkingIsCurrent(n: nat, run: seq<Action>, i: nat)
    requires CanRun(Init(n), run) && i < n && Run(Init(n), run).ph.Idle?
    ensures var s := Run(Init(n), run);
      && s.pst[i] != P_RECOVERY
      && (Live(s, i) ==> s.parts[i].txid == s.txid)
      && (Live(s, i) && Guarded(Init(n), run) ==>
            && s.parts[i].kv == Replay(s.log, s.txid)
            && Compatible(s.parts[i].log, s.txid, s.log, s.txid))
  {
    InitInv(n);
    var W := RunInv(Init(n), Some(map[]), run);
    var s := Run(Init(n), run);
    assert PartInv(s, W, i) && PhasePart(s, i);
    if s.restarted { assert !Live(s, i); }
    if Live(s, i) && Guarded(Init(n), run) {
      SameId(s, W, i);
      LogsAgree(n, run, i, i);
    }
  }
}

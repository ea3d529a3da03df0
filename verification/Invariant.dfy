/** What every reachable state of the protocol satisfies. */
module Invariant {
  import opened Replica
  import opened Options
  import opened Protocol

  // ---- all phases ----

  /** The log of all transactions somebody holds, while there is one.  There is none any more once two
      participants may hold different transactions of the same id; what is said of `W` is then void. */
  type Master = Option<map<nat, Log>>

  ghost predicate Agrees(W: Master, t: nat, e: Log) {
    W.Some? ==> t in W.value && W.value[t] == e
  }

  ghost function With(W: Master, t: nat, e: Log): Master {
    if W.Some? then Some(W.value[t := e]) else None
  }

  /** `log` is part of `W`. */
  ghost predicate Within(log: map<nat, Log>, W: Master) {
    forall t {:trigger t in log} :: t in log ==> Agrees(W, t, log[t])
  }

  /** A participant is consistent, its log is part of `W`, and it is blank if it went down unnoticed. */
  ghost predicate PartGood(p: Part, up: bool, st: PState, W: Master) {
    PartOk(p) && Within(p.log, W) && (!up && st != P_WAITING ==> p == INITIAL)
  }

  ghost predicate PartInv(s: Sys, W: Master, i: nat)
    requires Wf(s) && i < |s.parts|
  {
    PartGood(s.parts[i], s.up[i], s.pst[i], W)
  }

  /** The coordinator's log has every transaction before its own id, committed, and is part of `W`. */
  ghost predicate CoordGood(txid: nat, log: map<nat, Log>, W: Master) {
    && txid >= TXID_START
    && forall t {:trigger t in log} :: TXID_START <= t < txid ==>
         t in log && EntryOk(log[t], t) && Agrees(W, t, log[t])
  }

  ghost predicate Base(s: Sys, W: Master) {
    && Wf(s) && CoordGood(s.txid, s.log, W)
    && forall i {:trigger PartInv(s, W, i)} :: 0 <= i < |s.parts| ==> PartInv(s, W, i)
  }

  /** A participant that has reached the coordinator's transaction id has its log and its map. */
  lemma SameId(s: Sys, W: Master, i: nat)
    requires Base(s, W) && W.Some? && i < |s.parts| && s.parts[i].txid == s.txid
    ensures s.parts[i].kv == Replay(s.log, s.txid)
    ensures forall t {:trigger t in s.log} {:trigger t in s.parts[i].log} :: TXID_START <= t < s.txid ==>
              t in s.log && t in s.parts[i].log && s.parts[i].log[t] == s.log[t]
  {
    var p := s.parts[i];
    assert PartInv(s, W, i);
    forall t {:trigger t in s.log} {:trigger t in p.log} | TXID_START <= t < s.txid
      ensures t in s.log && t in p.log && p.log[t] == s.log[t]
    {
      assert t in s.log && t in p.log;
    }
    ReplaySame(p.log, s.log, s.txid);
  }

  // ---- phase by phase ----

  predicate Live(s: Sys, i: nat)
    requires Wf(s) && i < |s.parts|
  {
    s.pst[i] == P_WORKING && s.up[i]
  }

  /** Between recoveries a working participant whose link holds has reached the coordinator's id and no more.
      Before the first recovery nobody is working. */
  ghost predicate Quiet(s: Sys, i: nat)
    requires Wf(s) && i < |s.parts|
  {
    && s.pst[i] != P_RECOVERY
    && (if s.restarted then s.pst[i] != P_WORKING else Live(s, i) ==> s.parts[i].txid == s.txid)
  }

  ghost predicate CommitPart(s: Sys, cmd: seq<string>, pending: set<nat>, rets: map<nat, Reply>, i: nat)
    requires Wf(s) && i < |s.parts|
  {
    && s.pst[i] != P_RECOVERY
    && (Live(s, i) ==>
          if i in pending then s.parts[i].txid == s.txid
          else
            && i in rets
            && if Accepted(Command(cmd)) then s.parts[i].txid == s.txid + 1 && FitsPart(s, cmd, i)
               else s.parts[i].txid == s.txid)
  }

  /** In recovery: who is in the table, and what its entry says. */
  ghost predicate Tabled(s: Sys, i: nat)
    requires Wf(s) && i < |s.parts|
  {
    && s.pst[i] != P_TEMP
    && (i in s.tb <==> s.pst[i] == P_RECOVERY)
    && (i in s.tb ==> s.tb[i] + 1 >= TXID_START && (s.up[i] ==> s.parts[i].txid == s.tb[i] + 1))
  }

  ghost predicate QueryPart(s: Sys, pending: set<nat>, same: bool, i: nat)
    requires Wf(s) && i < |s.parts|
  {
    && (s.pst[i] == P_RECOVERY || s.pst[i] == P_WAITING)
    && (i in s.tb <==> s.pst[i] == P_RECOVERY && i !in pending)
    && (i in s.tb ==> s.tb[i] + 1 >= TXID_START && (s.up[i] ==> s.parts[i].txid == s.tb[i] + 1) &&
                      (same ==> s.tb[i] + 1 == s.txid))
  }

  ghost predicate LedPart(s: Sys, leader: nat, low: nat, high: nat, next: nat, i: nat)
    requires Wf(s) && i < |s.parts|
  {
    && Tabled(s, i)
    && (s.pst[i] == P_WORKING ==> i == leader) && (i == leader ==> i !in s.tb)
    && (i == leader && s.up[i] ==> s.parts[i].txid == high + 1)
    && (i in s.tb ==> s.tb[i] <= high && low <= s.tb[i] + if i < next then 0 else 1)
  }

  ghost predicate RefillPart(s: Sys, tid: nat, next: nat, i: nat)
    requires Wf(s) && i < |s.parts|
  {
    && Tabled(s, i)
    && (Live(s, i) ==> s.parts[i].txid == s.txid)
    && (i in s.tb ==> s.tb[i] < s.txid && tid <= s.tb[i] + if i < next then 0 else 1)
  }

  ghost predicate PhasePart(s: Sys, i: nat)
    requires Wf(s) && i < |s.parts|
  {
    match s.ph
    case Idle(_) => Quiet(s, i)
    case Vote(_, pending, yes) => Quiet(s, i) && (Live(s, i) && i !in pending ==> yes)
    case Commit(cmd, pending, rets) => CommitPart(s, cmd, pending, rets, i)
    case Read(_, next) => Quiet(s, i) && (Live(s, i) ==> i >= next)
    case Query(_, pending, same) => QueryPart(s, pending, same, i)
    case Pick(low) =>
      Tabled(s, i) && (Live(s, i) ==> s.parts[i].txid == s.txid) && (i in s.tb ==> low <= s.tb[i] + 1)
    case Ask(leader, low, high) => LedPart(s, leader, low, high, 0, i)
    case Push(leader, low, high, _, next) => LedPart(s, leader, low, high, next, i)
    case Refill(tid, next) => RefillPart(s, tid, next, i)
    case Failed => false
  }

  /** The entry of an update in progress. */
  ghost predicate Prepared(s: Sys, cmd: seq<string>) {
    s.txid in s.log && s.log[s.txid] == Log(s.txid, LOG_PRE, Command(cmd))
  }

  /** What a participant that has exactly the coordinator's transactions answers to `cmd`. */
  function Outcome(s: Sys, cmd: seq<string>): Reply {
    Execute(Replay(s.log, s.txid), Command(cmd)).1
  }

  ghost predicate TableIds(s: Sys) {
    forall i {:trigger i in s.tb} :: i in s.tb ==> i < |s.parts|
  }

  /** No entry of the table is ahead of the coordinator. */
  ghost predicate NoneAhead(s: Sys) {
    forall i {:trigger s.tb[i]} :: i in s.tb ==> s.tb[i] < s.txid
  }

  ghost predicate NobodyWorks(s: Sys) {
    forall i {:trigger s.pst[i]} :: 0 <= i < |s.pst| ==> s.pst[i] != P_WORKING
  }

  ghost predicate PhaseAll(s: Sys)
    requires Wf(s)
  {
    && (s.restarted ==> s.txid == TXID_START && !s.serving && s.ph.Idle?)
    && (s.serving ==> !Recovering(s.ph))
    && match s.ph
       case Idle(_) => true
       case Vote(cmd, _, _) => Prepared(s, cmd)
       case Commit(cmd, _, rets) =>
         Prepared(s, cmd) && forall r {:trigger rets[r]} :: r in rets ==>
           r < |s.parts| && (rets[r] != ErrorReply <==> Accepted(Command(cmd)))
       case Read(cmd, _) => IsRead(cmd)
       case Query(low, pending, _) =>
         && TableIds(s) && TXID_START <= low + 1 <= s.txid
         && forall i {:trigger i in pending} :: i in pending ==> i < |s.parts|
       case Pick(low) => TableIds(s) && TXID_START <= low <= s.txid && (NobodyWorks(s) || NoneAhead(s))
       case Ask(leader, low, high) =>
         TableIds(s) && leader < |s.parts| && TXID_START <= low <= s.txid <= high + 1
       case Push(leader, low, high, e, next) =>
         && TableIds(s) && leader < |s.parts| && TXID_START <= low < s.txid <= high + 1 && next <= |s.parts|
         && EntryOk(e, low)
       case Refill(tid, next) =>
         TableIds(s) && TXID_START <= tid <= s.txid && next <= |s.parts| && (tid == s.txid ==> next == 0)
       case Failed => false
  }

  /** While there is a log of all transactions: whoever is ahead has the update in progress as its next
      transaction, the answers collected are the right one, and the entry being handed out is in that log. */
  ghost predicate Concord(s: Sys, W: Master)
    requires Wf(s)
  {
    W.Some? ==>
      match s.ph
      case Vote(cmd, _, _) => Fits(s, cmd)
      case Commit(cmd, _, rets) =>
        Fits(s, cmd) && forall r {:trigger rets[r]} :: r in rets ==> rets[r] == Outcome(s, cmd)
      case Push(_, low, _, e, _) => Agrees(W, low, e)
      case _ => true
  }

  ghost predicate Inv(s: Sys, W: Master) {
    && Base(s, W) && PhaseAll(s) && Concord(s, W)
    && forall i {:trigger PhasePart(s, i)} :: 0 <= i < |s.parts| ==> PhasePart(s, i)
  }

  lemma InitInv(n: nat)
    ensures Inv(Init(n), Some(map[]))
  {
    var s := Init(n);
    forall i | 0 <= i < n ensures PartInv(s, Some(map[]), i) && PhasePart(s, i) {
    }
  }

  // ---- the environment ----

  lemma CrashInv(s: Sys, W: Master, id: nat)
    requires Inv(s, W) && id < |s.parts|
    ensures Inv(Lose(s, id), W)
  {
    var s2 := Lose(s, id);
    LoseBase(s, W, id);
    CrashPhase(s, id);
    CrashConcord(s, W, id);
    forall i | 0 <= i < |s.parts| ensures PhasePart(s2, i) {
      assert PhasePart(s, i);
      CrashPart(s, id, i);
    }
  }

  lemma CrashPhase(s: Sys, id: nat)
    requires Wf(s) && PhaseAll(s) && id < |s.parts|
    ensures PhaseAll(Lose(s, id))
  {
  }

  lemma CrashConcord(s: Sys, W: Master, id: nat)
    requires Wf(s) && Concord(s, W) && id < |s.parts| && s.txid >= TXID_START
    ensures Concord(Lose(s, id), W)
  {
    if W.Some? && (s.ph.Vote? || s.ph.Commit?) {
      var s2 := Lose(s, id);
      forall i | 0 <= i < |s.parts| ensures FitsPart(s2, s.ph.cmd, i) {
        assert FitsPart(s, s.ph.cmd, i);
      }
      assert Outcome(s2, s.ph.cmd) == Outcome(s, s.ph.cmd);
    }
  }

  /** Nothing that holds without a log of all transactions needs one. */
  lemma WithoutMaster(s: Sys, W: Master)
    requires Inv(s, W)
    ensures Inv(s, None)
  {
    forall i | 0 <= i < |s.parts| ensures PartInv(s, None, i) {
      assert PartInv(s, W, i);
    }
    CoordAnyway(s.txid, s.log, W, None);
  }

  lemma CoordAnyway(txid: nat, log: map<nat, Log>, W: Master, N: Master)
    requires CoordGood(txid, log, W) && N.None?
    ensures CoordGood(txid, log, N)
  {
    forall t {:trigger t in log} {:trigger log[t]} | TXID_START <= t < txid
      ensures t in log && EntryOk(log[t], t) && Agrees(N, t, log[t])
    {
      assert t in log;
    }
  }

  lemma CrashPart(s: Sys, id: nat, i: nat)
    requires Wf(s) && PhaseAll(s) && id < |s.parts| && i < |s.parts| && PhasePart(s, i) && s.txid >= TXID_START
    ensures PhasePart(Lose(s, id), i)
  {
    if i == id { CrashSelf(s, id); } else { ElsewherePart(s, Lose(s, id), i); }
  }

  lemma CrashSelf(s: Sys, id: nat)
    requires Wf(s) && PhaseAll(s) && id < |s.parts| && PhasePart(s, id) && s.txid >= TXID_START
    ensures PhasePart(Lose(s, id), id)
  {
  }

  lemma LoseBase(s: Sys, W: Master, id: nat)
    requires Base(s, W) && id < |s.parts|
    ensures Base(Lose(s, id), W)
  {
    var s2 := Lose(s, id);
    forall i | 0 <= i < |s.parts| ensures PartInv(s2, W, i) {
      assert PartInv(s, W, i);
    }
  }

  /** Whatever happens to others is of no concern to participant `i`. */
  lemma ElsewherePart(s: Sys, s2: Sys, i: nat)
    requires Wf(s) && Wf(s2) && |s2.parts| == |s.parts| && i < |s.parts| && PhasePart(s, i)
    requires s2.parts[i] == s.parts[i] && s2.up[i] == s.up[i] && s2.pst[i] == s.pst[i]
    requires s2.txid == s.txid && s2.restarted == s.restarted && s2.ph == s.ph
    requires Recovering(s.ph) ==> (i in s2.tb <==> i in s.tb) && (i in s.tb ==> s2.tb[i] == s.tb[i])
    ensures PhasePart(s2, i)
  {
    if Recovering(s.ph) { ElsewhereTabled(s, s2, i); }
  }

  lemma ElsewhereTabled(s: Sys, s2: Sys, i: nat)
    requires Wf(s) && Wf(s2) && |s2.parts| == |s.parts| && i < |s.parts| && PhasePart(s, i)
    requires s2.parts[i] == s.parts[i] && s2.up[i] == s.up[i] && s2.pst[i] == s.pst[i]
    requires s2.txid == s.txid && s2.ph == s.ph && Recovering(s.ph)
    requires (i in s2.tb <==> i in s.tb) && (i in s.tb ==> s2.tb[i] == s.tb[i])
    ensures PhasePart(s2, i)
  {
    match s.ph
    case Query(_, pending, same) => assert QueryPart(s2, pending, same, i);
    case Pick(_) => assert Tabled(s2, i);
    case Ask(leader, low, high) => assert LedPart(s2, leader, low, high, 0, i);
    case Push(leader, low, high, _, next) => assert LedPart(s2, leader, low, high, next, i);
    case Refill(tid, next) => assert RefillPart(s2, tid, next, i);
  }

  lemma ReconnectInv(s: Sys, W: Master, id: nat)
    requires Inv(s, W) && Enabled(s, Reconnect(id))
    ensures Inv(Step(s, Reconnect(id)), W)
  {
    var s2 := Step(s, Reconnect(id));
    forall i | 0 <= i < |s.parts| ensures PartInv(s2, W, i) {
      assert PartInv(s, W, i);
    }
    SameConcord(s, s2, W);
    forall i | 0 <= i < |s.parts| ensures PhasePart(s2, i) {
      assert PhasePart(s, i);
      ReconnectPart(s, id, i);
    }
  }

  lemma ReconnectPart(s: Sys, id: nat, i: nat)
    requires Wf(s) && Enabled(s, Reconnect(id)) && i < |s.parts| && PhasePart(s, i)
    ensures PhasePart(Step(s, Reconnect(id)), i)
  {
    if i != id { ElsewherePart(s, Step(s, Reconnect(id)), i); }
  }

  lemma SameConcord(s: Sys, s2: Sys, W: Master)
    requires Wf(s) && Wf(s2) && Concord(s, W) && s2.parts == s.parts && s2.txid == s.txid && s2.log == s.log
    requires s2.ph == s.ph
    ensures Concord(s2, W)
  {
    if W.Some? && (s.ph.Vote? || s.ph.Commit?) {
      SameFits(s, s2, s.ph.cmd);
      assert Outcome(s2, s.ph.cmd) == Outcome(s, s.ph.cmd);
    }
  }

  lemma RestartInv(s: Sys, W: Master)
    requires Inv(s, W)
    ensures Inv(Step(s, Restart), W)
  {
    var s2 := Step(s, Restart);
    forall i | 0 <= i < |s.parts| ensures PartInv(s2, W, i) && PhasePart(s2, i) {
      assert PartInv(s, W, i);
    }
  }

  // ---- one exchange ----

  /** The ways an exchange can go. */
  lemma SendCases(s: Sys, id: nat, m: Log, fate: Fate)
    requires Wf(s) && id < |s.parts|
    ensures var (s1, r) := Send(s, id, m, fate); var a := Answer(s.parts[id], m);
      if r.Some? then s.up[id] && s1 == Executed(s, id, m) && r.value == a.1 && a.1 != AssertionFailure
      else
        || s1 == Cut(s, id)
        || (s.up[id] && s1 == Cut(Executed(s, id, m), id))
        || (s.up[id] && s1 == Cut(Lose(s, id), id) && a.1 == AssertionFailure)
  {
  }

  /** Of the system's state an exchange changes the participants and the links, and on failure puts the
      participant in the waiting state. */
  lemma SendShape(s: Sys, id: nat, m: Log, fate: Fate)
    requires Wf(s) && id < |s.parts|
    ensures var (s1, r) := Send(s, id, m, fate);
      s1 == s.(parts := s1.parts, up := s1.up, pst := if r.None? then s.pst[id := P_WAITING] else s.pst)
  {
    SentShape(s, id, Answer(s.parts[id], m).0, Answer(s.parts[id], m).1, fate);
  }

  lemma SentShape(s: Sys, id: nat, p: Part, rc: Reply, fate: Fate)
    requires Wf(s) && id < |s.parts|
    ensures var (s1, r) := Sent(s, id, p, rc, fate);
      s1 == s.(parts := s1.parts, up := s1.up, pst := if r.None? then s.pst[id := P_WAITING] else s.pst)
  {
  }

  /** A message that does not commit leaves the participant as it is, heard or not. */
  lemma SendPeek(s: Sys, id: nat, m: Log, fate: Fate)
    requires Wf(s) && id < |s.parts|
    requires Answer(s.parts[id], m).0 == s.parts[id] && Answer(s.parts[id], m).1 != AssertionFailure
    ensures var (s1, r) := Send(s, id, m, fate);
      if r.None? then s1 == Cut(s, id) else s.up[id] && s1 == s && r.value == Answer(s.parts[id], m).1
  {
    assert s.parts[id := s.parts[id]] == s.parts;
  }

  lemma CutBase(s: Sys, W: Master, id: nat)
    requires Base(s, W) && id < |s.parts|
    ensures Base(Cut(s, id), W)
  {
    var s2 := Cut(s, id);
    forall i | 0 <= i < |s.parts| ensures PartInv(s2, W, i) {
      assert PartInv(s, W, i);
    }
  }

  /** Only the phase, the table and the flags differ: the base invariant is the same. */
  lemma SameBase(s: Sys, s2: Sys, W: Master)
    requires Base(s, W) && s2.parts == s.parts && s2.up == s.up && s2.pst == s.pst && s2.txid == s.txid
    requires s2.log == s.log
    ensures Base(s2, W)
  {
    forall i | 0 <= i < |s.parts| ensures PartInv(s2, W, i) {
      assert PartInv(s, W, i);
    }
  }

  lemma SameFits(s: Sys, s2: Sys, cmd: seq<string>)
    requires Wf(s) && Wf(s2) && Fits(s, cmd) && s2.parts == s.parts && s2.txid == s.txid
    ensures Fits(s2, cmd)
  {
    forall i | 0 <= i < |s.parts| ensures FitsPart(s2, cmd, i) {
      assert FitsPart(s, cmd, i);
    }
  }

  // ---- updates ----

  lemma StartUpdateInv(s: Sys, W: Master, cmd: seq<string>)
    requires Inv(s, W) && Enabled(s, StartUpdate(cmd)) && (W.Some? ==> Fits(s, cmd))
    ensures Inv(Step(s, StartUpdate(cmd)), W)
  {
    var s2 := Step(s, StartUpdate(cmd));
    if W.Some? { SameFits(s, s2, cmd); }
    forall i | 0 <= i < |s.parts| ensures PartInv(s2, W, i) && PhasePart(s2, i) {
      assert PartInv(s, W, i) && PhasePart(s, i);
    }
  }

  lemma VoteInv(s: Sys, W: Master, id: nat, fate: Fate)
    requires Inv(s, W) && s.ph.Vote? && id in s.ph.pending && id < |s.parts|
    ensures Inv(VoteExchange(s, id, fate), W)
  {
    var s2 := VoteExchange(s, id, fate);
    assert PhasePart(s, id) && PartInv(s, W, id);
    SendPeek(s, id, VoteRequest(s), fate);
    CutBase(s, W, id);
    var s1 := if s.pst[id] != P_WORKING then s else Send(s, id, VoteRequest(s), fate).0;
    SameBase(s1, s2, W);
    if W.Some? { SameFits(s, s2, s.ph.cmd); }
    forall i | 0 <= i < |s.parts| ensures PhasePart(s2, i) {
      assert PhasePart(s, i);
      VotePart(s, id, fate, i);
    }
  }

  lemma VotePart(s: Sys, id: nat, fate: Fate, i: nat)
    requires Wf(s) && PhaseAll(s) && s.ph.Vote? && id in s.ph.pending && id < |s.parts| && i < |s.parts|
    requires PhasePart(s, id) && PhasePart(s, i) && s.txid >= TXID_START
    ensures PhasePart(VoteExchange(s, id, fate), i)
  {
    SendPeek(s, id, VoteRequest(s), fate);
  }

  lemma FinishVoteInv(s: Sys, W: Master)
    requires Inv(s, W) && s.ph.Vote?
    ensures Inv(FinishVote(s), W)
  {
    var s2 := FinishVote(s);
    SameBase(s, s2, W);
    if W.Some? { SameFits(s, s2, s.ph.cmd); }
    forall i | 0 <= i < |s.parts| ensures PhasePart(s2, i) {
      assert PhasePart(s, i) && PartInv(s, W, i);
    }
  }

  /** The log of all transactions, with the one being committed. */
  ghost function Grown(s: Sys, W: Master): Master
    requires s.ph.Commit?
  {
    With(W, s.txid, CommitRequest(s, s.ph.cmd))
  }

  /** Adding the transaction being committed to `W` disturbs nobody: whoever has an entry of that id has
      this one. */
  lemma WithinMore(s: Sys, W: Master)
    requires Inv(s, W) && s.ph.Commit?
    ensures Base(s, Grown(s, W))
  {
    var W2 := Grown(s, W);
    forall i | 0 <= i < |s.parts| ensures PartInv(s, W2, i) {
      assert PartInv(s, W, i);
      if W.Some? { assert FitsPart(s, s.ph.cmd, i); }
    }
    CoordMore(s.txid, s.log, W, CommitRequest(s, s.ph.cmd));
  }

  lemma CoordMore(txid: nat, log: map<nat, Log>, W: Master, e: Log)
    requires CoordGood(txid, log, W)
    ensures CoordGood(txid, log, With(W, txid, e))
  {
    forall t {:trigger t in log} {:trigger log[t]} | TXID_START <= t < txid
      ensures t in log && EntryOk(log[t], t) && Agrees(With(W, txid, e), t, log[t])
    {
      assert t in log;
    }
  }

  /** What a participant that has the coordinator's id makes of the commit: it is then `p`, and answers `rc`. */
  ghost predicate Obeys(s: Sys, W: Master, id: nat, p: Part, rc: Reply)
    requires Wf(s) && s.ph.Commit? && id < |s.parts|
  {
    var req := CommitRequest(s, s.ph.cmd);
    && rc != AssertionFailure && (rc != ErrorReply <==> Accepted(req.event)) && (W.Some? ==> rc == Outcome(s, s.ph.cmd))
    && s.parts[id].txid == s.txid
    && (if Accepted(req.event) then p.txid == s.txid + 1 && p.log == s.parts[id].log[s.txid := req]
        else p == s.parts[id])
  }

  lemma CommitAnswer(s: Sys, W: Master, id: nat)
    requires Inv(s, W) && s.ph.Commit? && id in s.ph.pending && id < |s.parts| && Live(s, id)
    ensures var (p, rc) := Answer(s.parts[id], CommitRequest(s, s.ph.cmd)); PartOk(p) && Obeys(s, W, id, p, rc)
  {
    var req := CommitRequest(s, s.ph.cmd);
    assert PhasePart(s, id) && PartInv(s, W, id);
    AnswerKeepsOk(s.parts[id], req);
    if W.Some? { SameId(s, W, id); }
    ExecuteAccepts(s.parts[id].kv, req.event);
  }

  lemma CommitBase(s: Sys, W: Master, id: nat, p: Part, rc: Reply)
    requires Inv(s, W) && s.ph.Commit? && id < |s.parts| && Live(s, id) && PartOk(p) && Obeys(s, W, id, p, rc)
    ensures Base(s.(parts := s.parts[id := p]), Grown(s, W))
  {
    WithinMore(s, W);
    var s1, W2 := s.(parts := s.parts[id := p]), Grown(s, W);
    forall i | 0 <= i < |s.parts| ensures PartInv(s1, W2, i) {
      assert PartInv(s, W2, i);
    }
  }

  /** What a commit exchange can do: nothing, cut the link, have the command executed, or both. */
  ghost predicate CommitWent(s: Sys, s2: Sys, id: nat, p: Part, rc: Reply)
    requires Wf(s) && s.ph.Commit? && id < |s.parts|
  {
    var ph := Commit(s.ph.cmd, s.ph.pending - {id}, s.ph.rets);
    var s1 := s.(parts := s.parts[id := p]);
    || (s.pst[id] != P_WORKING && s2 == s.(ph := ph))
    || (s.pst[id] == P_WORKING && s2 == Cut(s, id).(ph := ph))
    || (Live(s, id) && s2 == Cut(s1, id).(ph := ph))
    || (Live(s, id) && s2 == s1.(ph := ph.(rets := s.ph.rets[id := rc])))
  }

  lemma CommitCases(s: Sys, id: nat, fate: Fate)
    requires Wf(s) && s.ph.Commit? && id < |s.parts|
    requires Live(s, id) ==> Answer(s.parts[id], CommitRequest(s, s.ph.cmd)).1 != AssertionFailure
    ensures var (p, rc) := Answer(s.parts[id], CommitRequest(s, s.ph.cmd));
      CommitWent(s, CommitExchange(s, id, fate), id, p, rc)
  {
    SendCases(s, id, CommitRequest(s, s.ph.cmd), fate);
  }

  lemma CommitInv(s: Sys, W: Master, id: nat, fate: Fate) returns (W2: Master)
    requires Inv(s, W) && s.ph.Commit? && id in s.ph.pending && id < |s.parts|
    ensures Inv(CommitExchange(s, id, fate), W2) && W2.Some? == W.Some?
  {
    var s2 := CommitExchange(s, id, fate);
    var (p, rc) := Answer(s.parts[id], CommitRequest(s, s.ph.cmd));
    if Live(s, id) { CommitAnswer(s, W, id); }
    CommitCases(s, id, fate);
    W2 := Grown(s, W);
    CommitGoes(s, s2, W, id, p, rc);
  }

  lemma CommitGoes(s: Sys, s2: Sys, W: Master, id: nat, p: Part, rc: Reply)
    requires Inv(s, W) && s.ph.Commit? && id in s.ph.pending && id < |s.parts| && CommitWent(s, s2, id, p, rc)
    requires Live(s, id) ==> PartOk(p) && Obeys(s, W, id, p, rc)
    ensures Inv(s2, Grown(s, W))
  {
    CommitStepBase(s, s2, W, id, p, rc);
    CommitPhase(s, s2, W, id, p, rc);
    CommitConcord(s, s2, W, id, p, rc);
    forall i | 0 <= i < |s.parts| ensures PhasePart(s2, i) {
      assert PhasePart(s, i);
      CommitPartStep(s, s2, W, id, p, rc, i);
    }
  }

  lemma CommitStepBase(s: Sys, s2: Sys, W: Master, id: nat, p: Part, rc: Reply)
    requires Inv(s, W) && s.ph.Commit? && id < |s.parts| && CommitWent(s, s2, id, p, rc)
    requires Live(s, id) ==> PartOk(p) && Obeys(s, W, id, p, rc)
    ensures Base(s2, Grown(s, W))
  {
    var W2, s1 := Grown(s, W), s.(parts := s.parts[id := p]);
    WithinMore(s, W);
    CutBase(s, W2, id);
    if s2.parts == s.parts {
      SameBase(if s2.pst == s.pst && s2.up == s.up then s else Cut(s, id), s2, W2);
    } else {
      CommitBase(s, W, id, p, rc);
      CutBase(s1, W2, id);
      SameBase(if s2.pst == s1.pst && s2.up == s1.up then s1 else Cut(s1, id), s2, W2);
    }
  }

  lemma CommitPhase(s: Sys, s2: Sys, W: Master, id: nat, p: Part, rc: Reply)
    requires Wf(s) && PhaseAll(s) && s.ph.Commit? && id < |s.parts| && CommitWent(s, s2, id, p, rc)
    requires Live(s, id) ==> Obeys(s, W, id, p, rc)
    ensures Wf(s2) && PhaseAll(s2)
  {
    assert Prepared(s2, s.ph.cmd);
  }

  lemma CommitConcord(s: Sys, s2: Sys, W: Master, id: nat, p: Part, rc: Reply)
    requires Wf(s) && Concord(s, W) && s.ph.Commit? && id < |s.parts| && CommitWent(s, s2, id, p, rc)
    requires Live(s, id) ==> Obeys(s, W, id, p, rc)
    ensures Wf(s2) && Concord(s2, Grown(s, W))
  {
    if W.Some? {
      forall i | 0 <= i < |s.parts| ensures FitsPart(s2, s.ph.cmd, i) {
        assert FitsPart(s, s.ph.cmd, i);
      }
      assert Outcome(s2, s.ph.cmd) == Outcome(s, s.ph.cmd);
    }
  }

  lemma CommitPartStep(s: Sys, s2: Sys, W: Master, id: nat, p: Part, rc: Reply, i: nat)
    requires Wf(s) && s.ph.Commit? && id in s.ph.pending && id < |s.parts| && CommitWent(s, s2, id, p, rc)
    requires Live(s, id) ==> Obeys(s, W, id, p, rc)
    requires i < |s.parts| && PhasePart(s, i)
    ensures Wf(s2) && PhasePart(s2, i)
  {
    assert CommitPart(s, s.ph.cmd, s.ph.pending, s.ph.rets, i);
  }

  lemma {:induction false} LastSuccessFacts(rets: map<nat, Reply>, n: nat)
    ensures LastSuccess(rets, n).None? <==> forall i :: 0 <= i < n && i in rets ==> rets[i] == ErrorReply
    ensures LastSuccess(rets, n).Some? ==>
              && LastSuccess(rets, n).value != ErrorReply
              && exists i :: 0 <= i < n && i in rets && rets[i] == LastSuccess(rets, n).value
  {
    if n > 0 {
      LastSuccessFacts(rets, n - 1);
    }
  }

  /** If nobody reported success, no live participant has the transaction; if somebody did, all of them have. */
  lemma CommitOutcome(s: Sys, W: Master, i: nat)
    requires Inv(s, W) && s.ph.Commit? && s.ph.pending == {} && i < |s.parts|
    ensures LastSuccess(s.ph.rets, |s.parts|).None? ==>
              Live(s, i) ==> s.parts[i].txid == s.txid && !Accepted(Command(s.ph.cmd))
    ensures LastSuccess(s.ph.rets, |s.parts|).Some? ==>
              && Accepted(Command(s.ph.cmd))
              && (Live(s, i) ==> s.parts[i].txid == s.txid + 1 && FitsPart(s, s.ph.cmd, i))
  {
    LastSuccessFacts(s.ph.rets, |s.parts|);
    assert PhasePart(s, i);
    if i in s.ph.rets { assert s.ph.rets[i] != ErrorReply <==> Accepted(Command(s.ph.cmd)); }
  }

  lemma FinishCommitInv(s: Sys, W: Master) returns (W2: Master)
    requires Inv(s, W) && s.ph.Commit? && s.ph.pending == {}
    ensures Inv(FinishCommit(s), W2) && W2.Some? == W.Some?
  {
    var s2 := FinishCommit(s);
    if LastSuccess(s.ph.rets, |s.parts|).None? {
      W2 := W;
      SameBase(s, s2, W);
    } else {
      W2 := Grown(s, W);
      WithinMore(s, W);
      FinishCommitBase(s, W);
    }
    forall i | 0 <= i < |s.parts| ensures PhasePart(s2, i) {
      assert PhasePart(s, i);
      CommitOutcome(s, W, i);
    }
  }

  lemma FinishCommitBase(s: Sys, W: Master)
    requires Inv(s, W) && s.ph.Commit? && s.ph.pending == {} && LastSuccess(s.ph.rets, |s.parts|).Some?
    requires Base(s, Grown(s, W))
    ensures Base(FinishCommit(s), Grown(s, W))
  {
    var s2, W2 := FinishCommit(s), Grown(s, W);
    if |s.parts| > 0 { CommitOutcome(s, W, 0); }
    assert s2.log[s.txid] == CommitRequest(s, s.ph.cmd);
    forall i | 0 <= i < |s.parts| ensures PartInv(s2, W2, i) {
      assert PartInv(s, W2, i);
    }
  }

  // ---- reads ----

  lemma StartReadInv(s: Sys, W: Master, cmd: seq<string>)
    requires Inv(s, W) && Enabled(s, StartRead(cmd))
    ensures Inv(Step(s, StartRead(cmd)), W)
  {
    var s2 := Step(s, StartRead(cmd));
    SameBase(s, s2, W);
    forall i | 0 <= i < |s.parts| ensures PhasePart(s2, i) {
      assert PhasePart(s, i);
    }
  }

  lemma ReadPeeks(s: Sys, id: nat)
    requires Wf(s) && s.ph.Read? && IsRead(s.ph.cmd) && id < |s.parts|
    ensures Answer(s.parts[id], Log(SUPER_TXID, LOG_COMMIT, Command(s.ph.cmd))).0 == s.parts[id]
  {
    assert Initial(s.ph.cmd) == 'G';
  }

  lemma ReadInv(s: Sys, W: Master, fate: Fate)
    requires Inv(s, W) && s.ph.Read? && s.ph.next < |s.parts|
    ensures Inv(ReadExchange(s, s.ph.next, fate), W)
  {
    var s2 := ReadExchange(s, s.ph.next, fate);
    ReadBase(s, W, fate);
    assert PhasePart(s, s.ph.next);
    forall i | 0 <= i < |s.parts| ensures PhasePart(s2, i) {
      assert PhasePart(s, i);
      ReadPart(s, fate, i);
    }
  }

  lemma ReadBase(s: Sys, W: Master, fate: Fate)
    requires Base(s, W) && PhaseAll(s) && s.ph.Read? && s.ph.next < |s.parts|
    ensures var s2 := ReadExchange(s, s.ph.next, fate); Base(s2, W) && PhaseAll(s2)
  {
    var s2 := ReadExchange(s, s.ph.next, fate);
    ReadCases(s, fate);
    CutBase(s, W, s.ph.next);
    SameBase(if s2 == s.(ph := s2.ph) then s else Cut(s, s.ph.next), s2, W);
  }

  lemma ReadPart(s: Sys, fate: Fate, i: nat)
    requires Wf(s) && PhaseAll(s) && s.ph.Read? && s.ph.next < |s.parts| && i < |s.parts| && PhasePart(s, i)
    requires PhasePart(s, s.ph.next) && s.txid >= TXID_START
    ensures PhasePart(ReadExchange(s, s.ph.next, fate), i)
  {
    ReadCases(s, fate);
  }

  /** The ways a read can go on: the participant is skipped, is lost, or has answered. */
  lemma ReadCases(s: Sys, fate: Fate)
    requires Wf(s) && s.ph.Read? && IsRead(s.ph.cmd) && s.ph.next < |s.parts|
    ensures var id, s2, more := s.ph.next, ReadExchange(s, s.ph.next, fate), Read(s.ph.cmd, s.ph.next + 1);
      || (s.pst[id] != P_WORKING && s2 == s.(ph := more))
      || (s.pst[id] == P_WORKING && s2 == Cut(s, id).(ph := more))
      || (s.pst[id] == P_WORKING && s2.ph.Idle? && s2 == s.(ph := s2.ph))
  {
    var m := Log(SUPER_TXID, LOG_COMMIT, Command(s.ph.cmd));
    ReadPeeks(s, s.ph.next);
    ExecuteAccepts(s.parts[s.ph.next].kv, m.event);
    SendPeek(s, s.ph.next, m, fate);
  }

  lemma ReadEndInv(s: Sys, W: Master)
    requires Inv(s, W) && s.ph.Read?
    ensures Inv(s.(ph := Idle(ErrorReply)), W)
  {
    var s2 := s.(ph := Idle(ErrorReply));
    SameBase(s, s2, W);
    forall i | 0 <= i < |s.parts| ensures PhasePart(s2, i) {
      assert PhasePart(s, i);
    }
  }
}

/** Every step of a recovery keeps the invariant, and a recovery ends between operations again. */
module RecoveryInvariant {
  import opened Replica
  import opened Options
  import opened Protocol
  import opened Invariant

  // ---- the query round ----

  lemma StartRecoveryInv(s: Sys, W: Master, low: nat)
    requires Inv(s, W) && Enabled(s, StartRecovery(low))
    ensures Inv(Step(s, StartRecovery(low)), W)
  {
    var s2 := Step(s, StartRecovery(low));
    forall i | 0 <= i < |s.parts| ensures PartInv(s2, W, i) && PhasePart(s2, i) {
      assert PartInv(s, W, i) && PhasePart(s, i);
    }
  }

  /** The three ways an exchange of the query round can go. */
  ghost predicate Queried(s: Sys, s2: Sys, id: nat)
    requires Wf(s) && s.ph.Query? && id < |s.parts|
  {
    var left := s.ph.pending - {id};
    || (s.pst[id] != P_RECOVERY && s2 == s.(ph := Query(s.ph.low, left, s.ph.same)))
    || (s.pst[id] == P_RECOVERY && s2 == Cut(s, id).(tb := s.tb - {id}, ph := Query(s.ph.low, left, s.ph.same)))
    || (s.pst[id] == P_RECOVERY && s.up[id] && s.parts[id].txid >= TXID_START &&
        s2 == s.(tb := s.tb[id := s.parts[id].txid - 1],
                 ph := Query(s.ph.low, left, s.ph.same && s.parts[id].txid == s.txid)))
  }

  lemma QueryCases(s: Sys, id: nat, fate: Fate)
    requires Wf(s) && s.ph.Query? && id < |s.parts| && PartOk(s.parts[id]) && s.txid >= TXID_START
    ensures Queried(s, QueryExchange(s, id, fate), id)
  {
    var (s1, r) := Send(s, id, Log(RECOVERY_TXID, LOG_PRE, NoEvent), fate);
    SendPeek(s, id, Log(RECOVERY_TXID, LOG_PRE, NoEvent), fate);
    assert s.pst[id] == P_RECOVERY ==> QueryExchange(s, id, fate) == Noted(s, id, s1, r);
    assert r.Some? ==> r.value == TxidReply(s.parts[id].txid - 1);
  }

  lemma QueryInv(s: Sys, W: Master, id: nat, fate: Fate)
    requires Inv(s, W) && s.ph.Query? && id in s.ph.pending && id < |s.parts|
    ensures Inv(QueryExchange(s, id, fate), W)
  {
    var s2 := QueryExchange(s, id, fate);
    assert PhasePart(s, id) && PartInv(s, W, id);
    QueryCases(s, id, fate);
    QueryBase(s, s2, W, id);
    forall i | 0 <= i < |s.parts| ensures PhasePart(s2, i) {
      assert PhasePart(s, i);
      QueryPartStep(s, s2, id, i);
    }
  }

  lemma QueryBase(s: Sys, s2: Sys, W: Master, id: nat)
    requires Base(s, W) && PhaseAll(s) && s.ph.Query? && id < |s.parts| && Queried(s, s2, id)
    ensures Base(s2, W) && PhaseAll(s2)
  {
    CutBase(s, W, id);
    SameBase(if s2.parts == s.parts && s2.up == s.up && s2.pst == s.pst then s else Cut(s, id), s2, W);
  }

  lemma QueryPartStep(s: Sys, s2: Sys, id: nat, i: nat)
    requires Wf(s) && Wf(s2) && |s2.parts| == |s.parts| && s.ph.Query? && id in s.ph.pending
    requires id < |s.parts| && i < |s.parts| && PhasePart(s, i) && s.txid >= TXID_START && Queried(s, s2, id)
    ensures PhasePart(s2, i)
  {
  }

  /** The least entry: below every entry and the bound, and one of them. */
  lemma {:induction false} LeastFacts(tb: map<nat, nat>, m: nat, n: nat)
    ensures Least(tb, m, n) <= m
    ensures forall i {:trigger tb[i]} :: 0 <= i < n && i in tb ==> Least(tb, m, n) <= tb[i]
    ensures Least(tb, m, n) == m || exists i :: 0 <= i < n && i in tb && tb[i] == Least(tb, m, n)
  {
    if n > 0 {
      LeastFacts(tb, m, n - 1);
    }
  }

  /** The leader: the first participant that holds the greatest entry, if any entry is above `best`. */
  lemma {:induction false} LeaderFacts(tb: map<nat, nat>, best: nat, n: nat)
    ensures var (p, high) := Leader(tb, best, n);
      && (forall i {:trigger tb[i]} :: 0 <= i < n && i in tb ==> tb[i] <= high)
      && (p.None? <==> high == best) && high >= best
      && (p.Some? ==> p.value < n && p.value in tb && tb[p.value] == high &&
                      forall i {:trigger tb[i]} :: 0 <= i < p.value && i in tb ==> tb[i] < high)
  {
    if n > 0 {
      LeaderFacts(tb, best, n - 1);
    }
  }

  /** Ready to finish: whoever is in the table has the coordinator's id. */
  ghost predicate Ready(s: Sys, i: nat)
    requires Wf(s) && i < |s.parts|
  {
    && Tabled(s, i) && (i in s.tb ==> s.tb[i] + 1 == s.txid) && (Live(s, i) ==> s.parts[i].txid == s.txid)
  }

  /** A recovery ends with every participant waiting or working. */
  lemma FinishInv(s: Sys, W: Master)
    requires Base(s, W) && !s.restarted && forall i {:trigger Ready(s, i)} :: 0 <= i < |s.parts| ==> Ready(s, i)
    ensures Inv(Finish(s), W)
    ensures forall i {:trigger Finish(s).pst[i]} :: 0 <= i < |s.parts| ==>
        Finish(s).pst[i] == P_WAITING || Finish(s).pst[i] == P_WORKING
  {
    var s2 := Finish(s);
    forall i | 0 <= i < |s.parts|
      ensures PartInv(s2, W, i) && PhasePart(s2, i) && (s2.pst[i] == P_WAITING || s2.pst[i] == P_WORKING)
    {
      assert PartInv(s, W, i) && Ready(s, i);
    }
  }

  lemma FinishQueryInv(s: Sys, W: Master)
    requires Inv(s, W) && s.ph.Query? && s.ph.pending == {}
    ensures Inv(FinishQuery(s), W)
  {
    var s2 := FinishQuery(s);
    if s.ph.same {
      forall i | 0 <= i < |s.parts| ensures Ready(s, i) {
        assert PhasePart(s, i);
      }
      FinishInv(s, W);
    } else {
      SameBase(s, s2, W);
      LeastFacts(s.tb, s.ph.low, |s.parts|);
      LeastHigh(s, W);
      forall i | 0 <= i < |s.parts| ensures PhasePart(s2, i) && s2.pst[i] != P_WORKING {
        assert PhasePart(s, i);
      }
    }
  }

  lemma LeastHigh(s: Sys, W: Master)
    requires Inv(s, W) && s.ph.Query?
    ensures Least(s.tb, s.ph.low, |s.parts|) + 1 >= TXID_START
  {
    var l := Least(s.tb, s.ph.low, |s.parts|);
    LeastFacts(s.tb, s.ph.low, |s.parts|);
    if l != s.ph.low {
      var i :| 0 <= i < |s.parts| && i in s.tb && s.tb[i] == l;
      assert PhasePart(s, i);
    }
  }

  // ---- recovery from a leader ----

  lemma PickInv(s: Sys, W: Master)
    requires Inv(s, W) && s.ph.Pick?
    ensures Inv(PickLeader(s), W)
  {
    var s2 := PickLeader(s);
    var (p, high) := Leader(s.tb, s.txid - 1, |s.parts|);
    LeaderFacts(s.tb, s.txid - 1, |s.parts|);
    if p.None? {
      SameBase(s, s2, W);
      forall i | 0 <= i < |s.parts| ensures PhasePart(s2, i) {
        assert PhasePart(s, i);
      }
    } else {
      assert s.tb[p.value] >= s.txid;
      assert NobodyWorks(s);
      forall i | 0 <= i < |s.parts| ensures PartInv(s2, W, i) && PhasePart(s2, i) {
        assert PartInv(s, W, i) && PhasePart(s, i) && s.pst[i] != P_WORKING;
      }
    }
  }

  /** The leader hands over the entry it was asked for. */
  lemma LeaderAnswers(s: Sys, W: Master)
    requires Inv(s, W) && s.ph.Ask? && s.ph.low <= s.ph.high && s.up[s.ph.leader]
    ensures var p := s.parts[s.ph.leader];
      && s.ph.low in p.log && EntryOk(p.log[s.ph.low], s.ph.low)
      && Agrees(W, s.ph.low, p.log[s.ph.low])
      && Answer(p, Log(ASK_DATA_TXID, LOG_COMMIT, Number(s.ph.low))) == (p, LogReply(p.log[s.ph.low]))
  {
    var p, low := s.parts[s.ph.leader], s.ph.low;
    assert PartInv(s, W, s.ph.leader) && PhasePart(s, s.ph.leader);
    assert low in p.log;
  }

  lemma AskInv(s: Sys, W: Master, fate: Fate)
    requires Inv(s, W) && s.ph.Ask? && s.ph.low <= s.ph.high
    ensures Inv(AskExchange(s, fate), W)
  {
    var id := s.ph.leader;
    var m := Log(ASK_DATA_TXID, LOG_COMMIT, Number(s.ph.low));
    assert PartInv(s, W, id) && PhasePart(s, id);
    NoAssertionFails(s.parts[id], m);
    SendPeek(s, id, m, fate);
    if s.pst[id] != P_WORKING {
      LeaderGone(s, W);
    } else if Send(s, id, m, fate).1.Some? {
      LeaderAnswers(s, W);
      AskHeard(s, W, fate, s.parts[id].log[s.ph.low]);
    } else {
      AskLost(s, W, fate);
    }
  }

  /** The leader has been lost before it could be asked. */
  lemma LeaderGone(s: Sys, W: Master)
    requires Inv(s, W) && s.ph.Ask? && s.pst[s.ph.leader] != P_WORKING && s.ph.low <= s.ph.high
    ensures Inv(s.(ph := Pick(s.ph.low)), W)
  {
    var s2 := s.(ph := Pick(s.ph.low));
    SameBase(s, s2, W);
    forall i | 0 <= i < |s.parts| ensures PhasePart(s2, i) && s2.pst[i] != P_WORKING {
      assert PhasePart(s, i);
    }
  }

  lemma AskLost(s: Sys, W: Master, fate: Fate)
    requires Inv(s, W) && s.ph.Ask? && s.ph.low <= s.ph.high && s.pst[s.ph.leader] == P_WORKING
    requires Send(s, s.ph.leader, Log(ASK_DATA_TXID, LOG_COMMIT, Number(s.ph.low)), fate) ==
        (Cut(s, s.ph.leader), None)
    ensures Inv(AskExchange(s, fate), W)
  {
    var id, s2 := s.ph.leader, AskExchange(s, fate);
    CutBase(s, W, id);
    SameBase(Cut(s, id), s2, W);
    forall i | 0 <= i < |s.parts| ensures PhasePart(s2, i) && s2.pst[i] != P_WORKING {
      assert PhasePart(s, i);
    }
  }

  /** The coordinator's log after it has heard the entry `e`. */
  lemma HeardBase(s: Sys, s2: Sys, W: Master, e: Log)
    requires Base(s, W) && s2.parts == s.parts && s2.up == s.up && s2.pst == s.pst
    requires EntryOk(e, s.txid) && Agrees(W, s.txid, e)
    requires s2.txid == s.txid + 1 && s2.log == s.log[s.txid := e]
    ensures Base(s2, W)
  {
    forall i | 0 <= i < |s.parts| ensures PartInv(s2, W, i) {
      assert PartInv(s, W, i);
    }
    forall t {:trigger t in s2.log} | TXID_START <= t < s2.txid
      ensures t in s2.log && EntryOk(s2.log[t], t) && Agrees(W, t, s2.log[t])
    {
      assert t in s.log || t == s.txid;
    }
    assert CoordGood(s2.txid, s2.log, W);
  }

  lemma AskHeard(s: Sys, W: Master, fate: Fate, e: Log)
    requires Inv(s, W) && s.ph.Ask? && s.ph.low <= s.ph.high && s.pst[s.ph.leader] == P_WORKING && s.up[s.ph.leader]
    requires EntryOk(e, s.ph.low) && Agrees(W, s.ph.low, e)
    requires Send(s, s.ph.leader, Log(ASK_DATA_TXID, LOG_COMMIT, Number(s.ph.low)), fate) == (s, Some(LogReply(e)))
    ensures Inv(AskExchange(s, fate), W)
  {
    var s2 := AskExchange(s, fate);
    if e.id == s.txid {
      HeardBase(s, s2, W, e);
    } else {
      SameBase(s, s2, W);
    }
    forall i | 0 <= i < |s.parts| ensures PhasePart(s2, i) {
      assert PhasePart(s, i);
    }
  }

  /** A leader that has handed over its whole log leaves nobody ahead of the coordinator. */
  lemma AskEndInv(s: Sys, W: Master)
    requires Inv(s, W) && s.ph.Ask? && s.ph.low > s.ph.high
    ensures Inv(s.(ph := Pick(s.ph.low)), W) && s.txid == s.ph.high + 1 && NoneAhead(s)
  {
    var s2 := s.(ph := Pick(s.ph.low));
    SameBase(s, s2, W);
    forall i | 0 <= i < |s.parts| ensures PhasePart(s2, i) && (i in s.tb ==> s.tb[i] < s.txid) {
      assert PhasePart(s, i);
    }
  }

  // ---- handing an entry to one participant ----

  /** What handing entry `e` to participant `id` can do. */
  ghost predicate Delivered(s: Sys, s2: Sys, id: nat, e: Log)
    requires Wf(s) && Wf(s2) && |s2.parts| == |s.parts| && id < |s.parts|
  {
    && s2.txid == s.txid && s2.log == s.log && s2.serving == s.serving && s2.restarted == s.restarted
    && (forall i {:trigger s2.parts[i]} {:trigger s2.up[i]} {:trigger s2.pst[i]} :: 0 <= i < |s.parts| && i != id ==>
          s2.parts[i] == s.parts[i] && s2.up[i] == s.up[i] && s2.pst[i] == s.pst[i])
    && (forall i {:trigger i in s2.tb} {:trigger s2.tb[i]} :: i in s2.tb ==>
        i in s.tb && (i != id ==> s2.tb[i] == s.tb[i]))
    && (forall i {:trigger i in s.tb} :: i in s.tb && i != id ==> i in s2.tb)
    && (id in s2.tb ==> e.id <= s2.tb[id] && (s2.tb[id] == s.tb[id] || s2.tb[id] == e.id))
    && (s2.pst[id] == P_WORKING <==> s.pst[id] == P_WORKING)
    && (s.pst[id] != P_RECOVERY ==> s2.parts[id] == s.parts[id] && s2.up[id] == s.up[id])
    && Tabled(s2, id)
  }

  ghost predicate Suits(s: Sys, W: Master, id: nat, e: Log) {
    && Base(s, W) && id < |s.parts| && Tabled(s, id)
    && EntryOk(e, e.id) && TXID_START <= e.id < s.txid && Agrees(W, e.id, e)
    && (id in s.tb ==> e.id <= s.tb[id] + 1)
  }

  lemma DeliverApplied(s: Sys, W: Master, id: nat, e: Log)
    requires Suits(s, W, id, e) && s.pst[id] == P_RECOVERY && s.up[id] && e.id == s.tb[id] + 1
    ensures var a := Answer(s.parts[id], e);
      && a.1 != ErrorReply && a.1 != AssertionFailure && a.0.txid == e.id + 1
      && Base(Executed(s, id, e), W)
  {
    assert PartInv(s, W, id);
    AnswerKeepsOk(s.parts[id], e);
    ExecuteAccepts(s.parts[id].kv, e.event);
    var s1 := Executed(s, id, e);
    forall i | 0 <= i < |s.parts| ensures PartInv(s1, W, i) {
      assert PartInv(s, W, i);
    }
  }

  lemma DeliverStep(s: Sys, W: Master, id: nat, e: Log, fate: Fate)
    requires Suits(s, W, id, e)
    ensures Base(Deliver(s, id, e, fate), W) && Delivered(s, Deliver(s, id, e, fate), id, e)
  {
    var s2 := Deliver(s, id, e, fate);
    if s.pst[id] != P_RECOVERY {
      assert s2 == s;
    } else if e.id != Entry(s.tb, id) + 1 {
      SameBase(s, s2, W);
    } else {
      SendCases(s, id, e, fate);
      if s.up[id] { DeliverApplied(s, W, id, e); }
      DeliverSent(s, W, id, e, fate);
    }
  }

  lemma DeliverSent(s: Sys, W: Master, id: nat, e: Log, fate: Fate)
    requires Suits(s, W, id, e) && s.pst[id] == P_RECOVERY && e.id == s.tb[id] + 1
    requires s.up[id] ==> var a := Answer(s.parts[id], e);
      && a.1 != ErrorReply && a.1 != AssertionFailure && a.0.txid == e.id + 1
      && Base(Executed(s, id, e), W)
    ensures Base(Deliver(s, id, e, fate), W) && Delivered(s, Deliver(s, id, e, fate), id, e)
  {
    var s2 := Deliver(s, id, e, fate);
    SendCases(s, id, e, fate);
    CutBase(s, W, id);
    if s.up[id] { CutBase(Executed(s, id, e), W, id); }
    SameBase(Send(s, id, e, fate).0, s2, W);
  }

  lemma HandedOver(s: Sys, W: Master, id: nat, e: Log, fate: Fate, ph: Phase)
    requires Suits(s, W, id, e)
    ensures var s2 := Deliver(s, id, e, fate).(ph := ph); Base(s2, W) && Delivered(s, s2, id, e)
  {
    DeliverStep(s, W, id, e, fate);
    SameBase(Deliver(s, id, e, fate), Deliver(s, id, e, fate).(ph := ph), W);
  }

  lemma PushInv(s: Sys, W: Master, fate: Fate)
    requires Inv(s, W) && s.ph.Push? && s.ph.next < |s.parts|
    ensures var d := Deliver(s, s.ph.next, s.ph.entry, fate);
      Inv(d.(ph := Push(s.ph.leader, s.ph.low, s.ph.high, s.ph.entry, s.ph.next + 1)), W)
  {
    var id, e := s.ph.next, s.ph.entry;
    var d := Deliver(s, id, e, fate);
    var s2 := d.(ph := Push(s.ph.leader, s.ph.low, s.ph.high, s.ph.entry, s.ph.next + 1));
    assert PhasePart(s, id);
    HandedOver(s, W, id, e, fate, s2.ph);
    forall i | 0 <= i < |s.parts| ensures PhasePart(s2, i) {
      assert PhasePart(s, i);
      PushPart(s, s2, id, e, i);
    }
    PushPhase(s, s2, id, e);
  }

  lemma PushPhase(s: Sys, s2: Sys, id: nat, e: Log)
    requires Wf(s) && Wf(s2) && |s2.parts| == |s.parts| && id < |s.parts| && Delivered(s, s2, id, e)
    requires PhaseAll(s) && s.ph.Push? && s.ph.next == id && s.ph.entry == e
    requires s2.ph == Push(s.ph.leader, s.ph.low, s.ph.high, s.ph.entry, id + 1)
    ensures PhaseAll(s2)
  {
    assert TableIds(s2);
  }

  lemma PushPart(s: Sys, s2: Sys, id: nat, e: Log, i: nat)
    requires Wf(s) && Wf(s2) && |s2.parts| == |s.parts| && id < |s.parts| && i < |s.parts| && Delivered(s, s2, id, e)
    requires s.ph.Push? && s.ph.next == id && s.ph.low == e.id && s.ph.low <= s.ph.high && PhasePart(s, i)
    requires s2.ph == Push(s.ph.leader, s.ph.low, s.ph.high, s.ph.entry, id + 1)
    ensures PhasePart(s2, i)
  {
    assert LedPart(s, s.ph.leader, s.ph.low, s.ph.high, id, i);
    assert s2.parts[i] == s2.parts[i];
    assert LedPart(s2, s.ph.leader, s.ph.low, s.ph.high, id + 1, i);
  }

  lemma PushEndInv(s: Sys, W: Master)
    requires Inv(s, W) && s.ph.Push? && s.ph.next >= |s.parts|
    ensures Inv(s.(ph := Ask(s.ph.leader, s.ph.low + 1, s.ph.high)), W)
  {
    var s2 := s.(ph := Ask(s.ph.leader, s.ph.low + 1, s.ph.high));
    SameBase(s, s2, W);
    forall i | 0 <= i < |s.parts| ensures PhasePart(s2, i) {
      assert PhasePart(s, i);
    }
  }

  // ---- recovery from the coordinator's own log ----

  lemma RefillInv(s: Sys, W: Master, fate: Fate)
    requires Inv(s, W) && s.ph.Refill? && s.ph.next < |s.parts| && s.ph.tid < s.txid
    ensures s.ph.tid in s.log
    ensures var d := Deliver(s, s.ph.next, s.log[s.ph.tid], fate);
      Inv(d.(ph := Refill(s.ph.tid, s.ph.next + 1)), W)
  {
    assert s.ph.tid in s.log;
    var id, e := s.ph.next, s.log[s.ph.tid];
    var d := Deliver(s, id, e, fate);
    var s2 := d.(ph := Refill(s.ph.tid, s.ph.next + 1));
    assert PhasePart(s, id);
    HandedOver(s, W, id, e, fate, s2.ph);
    forall i | 0 <= i < |s.parts| ensures PhasePart(s2, i) {
      assert PhasePart(s, i);
      RefillPartStep(s, s2, id, e, i);
    }
    assert TableIds(s2);
  }

  lemma RefillPartStep(s: Sys, s2: Sys, id: nat, e: Log, i: nat)
    requires Wf(s) && Wf(s2) && |s2.parts| == |s.parts| && id < |s.parts| && i < |s.parts| && Delivered(s, s2, id, e)
    requires s.ph.Refill? && s.ph.next == id && s.ph.tid == e.id < s.txid && PhasePart(s, i)
    requires s2.ph == Refill(e.id, id + 1)
    ensures PhasePart(s2, i)
  {
    assert RefillPart(s, e.id, id, i);
    assert s2.parts[i] == s2.parts[i];
    assert RefillPart(s2, e.id, id + 1, i);
  }

  lemma RefillAdvanceInv(s: Sys, W: Master)
    requires Inv(s, W) && s.ph.Refill?
    ensures Inv(AdvanceStep(s), W)
  {
    var s2 := AdvanceStep(s);
    if s.ph.tid >= s.txid {
      forall i | 0 <= i < |s.parts| ensures Ready(s, i) {
        assert PhasePart(s, i);
      }
      FinishInv(s, W);
    } else if s.ph.next >= |s.parts| {
      SameBase(s, s2, W);
      forall i | 0 <= i < |s.parts| ensures PhasePart(s2, i) {
        assert PhasePart(s, i);
      }
    }
  }
}

/** A transaction that was answered outlives restarts of the coordinator, as long as every recovery that begins
    without it is attended by some participant that has it. */
module Durability {
  import opened Replica
  import opened Options
  import opened Protocol
  import opened Invariant
  import opened RecoveryInvariant
  import opened Agreement
  import opened Requests
  import opened Recoveries

  /** Participant `i` crashes, or an exchange with it fails. */
  predicate Loses(a: Action, i: nat) {
    a == Crash(i) || (a.Exchange? && a.id == i && a.fate != Heard)
  }

  /** `q` is `p`, with transactions added. */
  ghost predicate Grows(p: Part, q: Part) {
    q.txid >= p.txid && forall t {:trigger t in p.log} {:trigger t in q.log} :: t in p.log ==>
        t in q.log && q.log[t] == p.log[t]
  }

  /** The link of participant `i` works unless the coordinator knows better. */
  predicate Linked(s: Sys, i: nat)
    requires Wf(s) && i < |s.parts|
  {
    s.up[i] || s.pst[i] == P_WAITING
  }

  /** Between `s` and `t` participant `i` has not been lost. */
  ghost predicate Stays(s: Sys, t: Sys, i: nat)
    requires Wf(s) && Wf(t) && i < |s.parts| == |t.parts|
  {
    Grows(s.parts[i], t.parts[i]) && Linked(t, i) && (s.pst[i] != P_WAITING ==> t.pst[i] != P_WAITING)
  }

  lemma AnswerGrows(p: Part, m: Log)
    requires PartOk(p)
    ensures Grows(p, Answer(p, m).0)
  {
    var q := Answer(p, m).0;
    forall t {:trigger t in p.log} | t in p.log ensures t in q.log && q.log[t] == p.log[t] {
      assert t < p.txid;
    }
  }

  lemma SendElsewhere(s: Sys, id: nat, m: Log, fate: Fate, i: nat)
    requires Wf(s) && id < |s.parts| && i < |s.parts| && i != id
    ensures var s1 := Send(s, id, m, fate).0;
      s1.parts[i] == s.parts[i] && s1.up[i] == s.up[i] && s1.pst[i] == s.pst[i]
  {
    SendCases(s, id, m, fate);
  }

  /** A message that arrives is answered; the coordinator changes nothing else. */
  lemma SendStays(s: Sys, id: nat, m: Log, fate: Fate, i: nat)
    requires Wf(s) && id < |s.parts| && i < |s.parts| && PartOk(s.parts[i]) && Linked(s, i)
    requires m.id == ASK_DATA_TXID ==> m.event.Number? && m.event.n >= TXID_START
    requires s.pst[id] != P_WAITING && !Loses(Exchange(id, fate), i)
    ensures Stays(s, Send(s, id, m, fate).0, i)
  {
    if id == i {
      NoAssertionFails(s.parts[i], m);
      AnswerGrows(s.parts[i], m);
    } else {
      SendElsewhere(s, id, m, fate, i);
    }
  }

  lemma DeliverStays(s: Sys, id: nat, e: Log, fate: Fate, i: nat)
    requires Wf(s) && id < |s.parts| && i < |s.parts| && PartOk(s.parts[i]) && Linked(s, i)
    requires e.id != ASK_DATA_TXID && !Loses(Exchange(id, fate), i)
    ensures Stays(s, Deliver(s, id, e, fate), i)
  {
    DeliverEffect(s, id, e, fate);
    if s.pst[id] == P_RECOVERY { SendStays(s, id, e, fate, i); }
  }

  /** Handing over an entry does to participants and links what sending it does, or nothing. */
  lemma DeliverEffect(s: Sys, id: nat, e: Log, fate: Fate)
    requires Wf(s) && id < |s.parts|
    ensures var t, s1 := Deliver(s, id, e, fate), Send(s, id, e, fate).0;
      || (t.parts == s.parts && t.up == s.up && t.pst == s.pst)
      || (s.pst[id] == P_RECOVERY && t.parts == s1.parts && t.up == s1.up && t.pst == s1.pst)
  {
    var (s1, r) := Send(s, id, e, fate);
    HandedEffect(s, id, s1, r);
  }

  lemma HandedEffect(s: Sys, id: nat, s1: Sys, r: Option<Reply>)
    ensures var t := Handed(s, id, s1, r); t.parts == s1.parts && t.up == s1.up && t.pst == s1.pst
  {
  }

  /** What an exchange of any round does, given what sending does: if `sends`, the participants, links and
      states are those after it, and else they are as they were; the coordinator's log is left alone. */
  ghost predicate Effect(s: Sys, s2: Sys, sends: bool, s1: Sys) {
    && (if sends then s2.parts == s1.parts && s2.up == s1.up && s2.pst == s1.pst
        else s2.parts == s.parts && s2.up == s.up && s2.pst == s.pst)
    && s2.txid == s.txid && s2.log == s.log && s2.serving == s.serving && s2.restarted == s.restarted
  }

  lemma VoteEffect(s: Sys, id: nat, fate: Fate)
    requires Wf(s) && s.ph.Vote? && id < |s.parts|
    ensures Effect(s, VoteExchange(s, id, fate), s.pst[id] == P_WORKING, Send(s, id, VoteRequest(s), fate).0)
  {
    SendShape(s, id, VoteRequest(s), fate);
  }

  lemma CommitEffect(s: Sys, id: nat, fate: Fate)
    requires Wf(s) && s.ph.Commit? && id < |s.parts|
    ensures Effect(s, CommitExchange(s, id, fate), s.pst[id] == P_WORKING,
                   Send(s, id, CommitRequest(s, s.ph.cmd), fate).0)
  {
    SendShape(s, id, CommitRequest(s, s.ph.cmd), fate);
  }

  function ReadRequest(cmd: seq<string>): Log {
    Log(SUPER_TXID, LOG_COMMIT, Command(cmd))
  }

  lemma ReadEffect(s: Sys, id: nat, fate: Fate)
    requires Wf(s) && s.ph.Read? && id < |s.parts|
    ensures Effect(s, ReadExchange(s, id, fate), s.pst[id] == P_WORKING,
                   Send(s, id, ReadRequest(s.ph.cmd), fate).0)
  {
    SendShape(s, id, ReadRequest(s.ph.cmd), fate);
  }

  lemma QueryEffect(s: Sys, id: nat, fate: Fate)
    requires Wf(s) && s.ph.Query? && id < |s.parts|
    ensures Effect(s, QueryExchange(s, id, fate), s.pst[id] == P_RECOVERY,
                   Send(s, id, Log(RECOVERY_TXID, LOG_PRE, NoEvent), fate).0)
  {
    SendShape(s, id, Log(RECOVERY_TXID, LOG_PRE, NoEvent), fate);
  }

  lemma RoundStays(s: Sys, W: Master, id: nat, fate: Fate, i: nat)
    requires Inv(s, W) && id < |s.parts| && i < |s.parts| && Linked(s, i) && !Loses(Exchange(id, fate), i)
    requires s.ph.Vote? || s.ph.Commit?
    ensures Stays(s, ExchangeStep(s, id, fate), i)
  {
    assert PartInv(s, W, i);
    match s.ph
    case Vote(_, _, _) =>
      VoteEffect(s, id, fate);
      if s.pst[id] == P_WORKING { SendStays(s, id, VoteRequest(s), fate, i); }
    case Commit(cmd, _, _) =>
      CommitEffect(s, id, fate);
      if s.pst[id] == P_WORKING { SendStays(s, id, CommitRequest(s, cmd), fate, i); }
  }

  lemma ReadStays(s: Sys, W: Master, id: nat, fate: Fate, i: nat)
    requires Inv(s, W) && s.ph.Read? && id < |s.parts| && i < |s.parts| && Linked(s, i)
    requires !Loses(Exchange(id, fate), i)
    ensures Stays(s, ReadExchange(s, id, fate), i)
  {
    assert PartInv(s, W, i);
    ReadEffect(s, id, fate);
    if s.pst[id] == P_WORKING { SendStays(s, id, ReadRequest(s.ph.cmd), fate, i); }
  }

  lemma QueryStays(s: Sys, W: Master, id: nat, fate: Fate, i: nat)
    requires Inv(s, W) && s.ph.Query? && id < |s.parts| && i < |s.parts| && Linked(s, i)
    requires !Loses(Exchange(id, fate), i)
    ensures Stays(s, QueryExchange(s, id, fate), i)
  {
    assert PartInv(s, W, i);
    QueryEffect(s, id, fate);
    if s.pst[id] == P_RECOVERY { SendStays(s, id, Log(RECOVERY_TXID, LOG_PRE, NoEvent), fate, i); }
  }

  lemma AskStays(s: Sys, W: Master, fate: Fate, i: nat)
    requires Inv(s, W) && s.ph.Ask? && i < |s.parts| && Linked(s, i) && !Loses(Exchange(s.ph.leader, fate), i)
    ensures Stays(s, AskExchange(s, fate), i)
  {
    assert PartInv(s, W, i);
    var id, m := s.ph.leader, Log(ASK_DATA_TXID, LOG_COMMIT, Number(s.ph.low));
    if s.pst[id] == P_WORKING { SendStays(s, id, m, fate, i); }
    AskEffect(s, fate);
  }

  lemma AskEffect(s: Sys, fate: Fate)
    requires Wf(s) && s.ph.Ask? && s.ph.leader < |s.parts|
    ensures var s2 := AskExchange(s, fate);
      var s1 := Send(s, s.ph.leader, Log(ASK_DATA_TXID, LOG_COMMIT, Number(s.ph.low)), fate).0;
      if s.pst[s.ph.leader] == P_WORKING then s2.parts == s1.parts && s2.up == s1.up && s2.pst == s1.pst
      else s2.parts == s.parts && s2.up == s.up && s2.pst == s.pst
  {
  }

  lemma ExchangeStays(s: Sys, W: Master, id: nat, fate: Fate, i: nat)
    requires Inv(s, W) && id < |s.parts| && i < |s.parts| && Linked(s, i) && !Loses(Exchange(id, fate), i)
    ensures Stays(s, ExchangeStep(s, id, fate), i)
  {
    assert PartInv(s, W, i);
    match s.ph
    case Read(_, next) => if id == next { ReadStays(s, W, id, fate, i); }
    case Query(_, pending, _) => if id in pending { QueryStays(s, W, id, fate, i); }
    case Ask(leader, low, high) => if id == leader && low <= high { AskStays(s, W, fate, i); }
    case Push(_, _, _, e, next) => if id == next { DeliverStays(s, id, e, fate, i); }
    case Refill(tid, next) =>
      if id == next && tid < s.txid {
        assert tid in s.log;
        DeliverStays(s, id, s.log[tid], fate, i);
      }
    case Idle(_) =>
    case Pick(_) =>
    case Failed =>
    case _ => RoundStays(s, W, id, fate, i);
  }

  /** Whoever is in the table has been reached. */
  lemma TableReached(s: Sys, W: Master, i: nat)
    requires Inv(s, W) && Recovering(s.ph) && i < |s.parts| && i in s.tb
    ensures s.pst[i] == P_RECOVERY
  {
    assert PhasePart(s, i);
  }

  lemma AdvanceStays(s: Sys, W: Master, i: nat)
    requires Inv(s, W) && i < |s.parts| && Linked(s, i)
    ensures Stays(s, AdvanceStep(s), i)
  {
    AdvanceCases(s);
    if Recovering(s.ph) {
      if i in s.tb { TableReached(s, W, i); }
      FinishStays(s, i);
      if s.ph.Pick? {
        LeaderFacts(s.tb, s.txid - 1, |s.parts|);
        LeaderStays(s, i);
      }
    }
  }

  lemma AdvanceCases(s: Sys)
    requires Wf(s)
    ensures var s2 := AdvanceStep(s);
      || (Recovering(s.ph) && s2 == Finish(s))
      || (s.ph.Pick? && s2 == PickLeader(s))
      || (s2.parts == s.parts && s2.up == s.up && s2.pst == s.pst)
  {
  }

  lemma LeaderStays(s: Sys, i: nat)
    requires Wf(s) && s.ph.Pick? && s.txid > 0 && i < |s.parts| && Linked(s, i)
    requires i in s.tb ==> s.pst[i] == P_RECOVERY
    requires Leader(s.tb, s.txid - 1, |s.parts|).0 == Some(i) ==> i in s.tb
    ensures Stays(s, PickLeader(s), i)
  {
  }

  lemma FinishStays(s: Sys, i: nat)
    requires Wf(s) && i < |s.parts| && Linked(s, i) && (i in s.tb ==> s.pst[i] == P_RECOVERY)
    ensures Stays(s, Finish(s), i)
  {
  }

  /** No step but a restart loses a participant that is reached, unless it crashes or an exchange with it fails. */
  lemma StepStays(s: Sys, W: Master, a: Action, i: nat)
    requires Inv(s, W) && Enabled(s, a) && i < |s.parts| && Linked(s, i) && !Loses(a, i)
    ensures var t := Step(s, a); Grows(s.parts[i], t.parts[i]) && Linked(t, i) && (a != Restart ==> Stays(s, t, i))
  {
    match a
    case Exchange(id, fate) => ExchangeStays(s, W, id, fate, i);
    case Advance => AdvanceStays(s, W, i);
    case _ =>
  }

  // ---- the coordinator's log ----

  /** The coordinator has committed entry `e` as transaction `t`. */
  predicate Has(s: Sys, t: nat, e: Log) {
    t < s.txid && t in s.log && s.log[t] == e
  }

  /** Only a restart takes a committed transaction from the coordinator. */
  lemma StepHas(s: Sys, a: Action, t: nat, e: Log)
    requires Wf(s) && Enabled(s, a) && Has(s, t, e) && a != Restart
    ensures Has(Step(s, a), t, e)
  {
    match a
    case Exchange(id, fate) => ExchangeHas(s, id, fate, t, e);
    case Advance => AdvanceHas(s, t, e);
    case _ =>
  }

  lemma ExchangeHas(s: Sys, id: nat, fate: Fate, t: nat, e: Log)
    requires Wf(s) && id < |s.parts| && Has(s, t, e)
    ensures Has(ExchangeStep(s, id, fate), t, e)
  {
    match s.ph
    case Vote(_, _, _) => VoteEffect(s, id, fate);
    case Commit(_, _, _) => CommitEffect(s, id, fate);
    case Read(_, _) => ReadEffect(s, id, fate);
    case Query(_, _, _) => QueryEffect(s, id, fate);
    case Ask(leader, _, _) => if id == leader { AskKeeps(s, fate); }
    case Push(_, _, _, entry, _) => DeliverKeeps(s, id, entry, fate);
    case Refill(tid, _) => if tid in s.log { DeliverKeeps(s, id, s.log[tid], fate); }
    case _ =>
  }

  lemma AdvanceHas(s: Sys, t: nat, e: Log)
    requires Wf(s) && Has(s, t, e)
    ensures Has(AdvanceStep(s), t, e)
  {
  }

  // ---- runs ----

  /** Participant `i` holds entry `e` as transaction `t`. */
  predicate Holds(s: Sys, i: nat, t: nat, e: Log)
    requires Wf(s) && i < |s.parts|
  {
    t < s.parts[i].txid && t in s.parts[i].log && s.parts[i].log[t] == e
  }

  /** Participant `i` is not lost until the recovery in progress is over or the coordinator restarts. */
  predicate Attends(s: Sys, run: seq<Action>, i: nat)
    requires Wf(s) && CanRun(s, run)
    decreases |run|
  {
    run == [] || s.ph.Idle? || run[0] == Restart || (!Loses(run[0], i) && Attends(Step(s, run[0]), run[1..], i))
  }

  /** Participant `i` takes the entry into a recovery that begins with `run[0]`, and stays to its end. */
  predicate Carrier(s: Sys, run: seq<Action>, i: nat, t: nat, e: Log)
    requires Wf(s) && CanRun(s, run) && run != [] && i < |s.parts|
  {
    Holds(s, i, t, e) && Reached(s, i) && s.up[i] && Attends(Step(s, run[0]), run[1..], i)
  }

  /** Every recovery that the coordinator begins without the entry has a carrier of it, not always the same. */
  predicate Carried(s: Sys, run: seq<Action>, t: nat, e: Log)
    requires Wf(s) && CanRun(s, run)
    decreases |run|
  {
    run == [] || (
      && Carried(Step(s, run[0]), run[1..], t, e)
      && (run[0].StartRecovery? && !Has(s, t, e) ==>
            exists i {:trigger Carrier(s, run, i, t, e)} :: 0 <= i < |s.parts| && Carrier(s, run, i, t, e)))
  }

  /** Participant `i` holds the entry in a recovery it attends to the end. */
  ghost predicate Attending(s: Sys, run: seq<Action>, i: nat, t: nat, e: Log)
    requires Wf(s) && CanRun(s, run) && i < |s.parts|
  {
    Recovering(s.ph) && s.pst[i] != P_WAITING && Linked(s, i) && Holds(s, i, t, e) && Attends(s, run, i)
  }

  /** The coordinator has the entry, or has just started, or is in a recovery that a holder attends. */
  ghost predicate Kept(s: Sys, run: seq<Action>, t: nat, e: Log)
    requires Wf(s) && CanRun(s, run)
  {
    || Has(s, t, e) || s.restarted
    || exists i {:trigger Attending(s, run, i, t, e)} :: 0 <= i < |s.parts| && Attending(s, run, i, t, e)
  }

  lemma StepKept(s: Sys, W: Master, run: seq<Action>, t: nat, e: Log)
    requires Inv(s, W) && W.Some? && CanRun(s, run) && run != [] && TXID_START <= t
    requires Kept(s, run, t, e) && Carried(s, run, t, e)
    ensures Kept(Step(s, run[0]), run[1..], t, e)
  {
    var a := run[0];
    if a == Restart {
    } else if Has(s, t, e) {
      StepHas(s, a, t, e);
    } else if s.restarted {
      if a.StartRecovery? {
        var i :| 0 <= i < |s.parts| && Carrier(s, run, i, t, e);
        assert Attending(Step(s, a), run[1..], i, t, e);
      }
    } else {
      var i :| 0 <= i < |s.parts| && Attending(s, run, i, t, e);
      RecoveringKept(s, W, a, i, t, e);
      if !Has(Step(s, a), t, e) {
        assert Attending(Step(s, a), run[1..], i, t, e);
      }
    }
  }

  /** A recovery which participant `i` attends ends with the coordinator holding what it holds. */
  lemma RecoveringKept(s: Sys, W: Master, a: Action, i: nat, t: nat, e: Log)
    requires Inv(s, W) && W.Some? && Enabled(s, a) && i < |s.parts| && Holds(s, i, t, e) && TXID_START <= t
    requires Recovering(s.ph) && s.pst[i] != P_WAITING && Linked(s, i) && a != Restart && !Loses(a, i)
    ensures var s2 := Step(s, a);
      Has(s2, t, e) || (Recovering(s2.ph) && s2.pst[i] != P_WAITING && Linked(s2, i) && Holds(s2, i, t, e))
  {
    var s2 := Step(s, a);
    StepStays(s, W, a, i);
    RecoveryStep(s, s, W, a);
    assert t in s2.parts[i].log;
    if !Recovering(s2.ph) {
      assert Settled(s2, i, true) && Live(s2, i);
    }
  }

  lemma {:induction false} RunKept(s: Sys, W: Master, run: seq<Action>, t: nat, e: Log)
    requires Inv(s, W) && W.Some? && CanRun(s, run) && Guarded(s, run) && TXID_START <= t
    requires Kept(s, run, t, e) && Carried(s, run, t, e)
    ensures Run(s, run).ph.Idle? && !Run(s, run).restarted ==> Has(Run(s, run), t, e)
    decreases |run|
  {
    if run != [] {
      StepKept(s, W, run, t, e);
      var W2 := StepInv(s, W, run[0]);
      RunKept(Step(s, run[0]), W2, run[1..], t, e);
    }
  }

  /** Durability.  An update has been answered and the answer is no error.  Then whatever else happens, crashes,
      lost exchanges and restarts of the coordinator too, as long as every recovery that the coordinator begins
      without the update has a carrier of it: whenever the coordinator is idle and has begun a recovery since
      it started, its log has the update as the transaction it was. */
  lemma {:induction false} AnswerIsDurable(n: nat, before: seq<Action>, cmd: seq<string>, run: seq<Action>,
                                          later: seq<Action>)
    requires CanRun(Init(n), before) && Guarded(Init(n), before)
    requires Enabled(Run(Init(n), before), StartUpdate(cmd)) && Fits(Run(Init(n), before), cmd)
    requires var s0 := Run(Init(n), before);
      var s := Step(s0, StartUpdate(cmd));
      Serving(s, run) && CanRun(s, run)
      && Run(s, run).ph.Idle? && Run(s, run).ph.reply != ErrorReply
      && CanRun(Run(s, run), later) && Guarded(Run(s, run), later)
      && Carried(Run(s, run), later, s0.txid, Log(s0.txid, LOG_COMMIT, Command(cmd)))
    ensures var s0 := Run(Init(n), before);
      var s := Run(Run(Step(s0, StartUpdate(cmd)), run), later);
      s.ph.Idle? && !s.restarted ==> Has(s, s0.txid, Log(s0.txid, LOG_COMMIT, Command(cmd)))
  {
    var s0 := Run(Init(n), before);
    var s := Step(s0, StartUpdate(cmd));
    InitInv(n);
    var W := RunInv(Init(n), Some(map[]), before);
    StartUpdateInv(s0, W, cmd);
    UpdateReply(n, before, cmd, run);
    ServingGuarded(s, run);
    var W2 := RunInv(s, W, run);
    RunKept(Run(s, run), W2, later, s0.txid, Log(s0.txid, LOG_COMMIT, Command(cmd)));
  }

  // ---- one participant that stays ----

  /** Participant `i` is never lost, and takes part in every recovery. */
  predicate Faithful(s: Sys, run: seq<Action>, i: nat)
    requires Wf(s) && CanRun(s, run) && i < |s.parts|
    decreases |run|
  {
    run == [] || (
      && !Loses(run[0], i) && (run[0].StartRecovery? ==> Reached(s, i) && s.up[i])
      && Faithful(Step(s, run[0]), run[1..], i))
  }

  /** One participant that stays carries all it holds. */
  lemma {:induction false} FaithfulCarries(s: Sys, W: Master, run: seq<Action>, i: nat, t: nat, e: Log)
    requires Inv(s, W) && CanRun(s, run) && i < |s.parts| && Linked(s, i) && Holds(s, i, t, e) && Faithful(s, run, i)
    ensures Carried(s, run, t, e)
    decreases |run|
  {
    if run != [] {
      StepStays(s, W, run[0], i);
      var W2 := StepInv(s, W, run[0]);
      var s2 := Step(s, run[0]);
      assert t in s2.parts[i].log;
      FaithfulCarries(s2, W2, run[1..], i, t, e);
      FaithfulAttends(s2, run[1..], i);
      assert run[0].StartRecovery? ==> Carrier(s, run, i, t, e);
    }
  }

  lemma {:induction false} FaithfulAttends(s: Sys, run: seq<Action>, i: nat)
    requires Wf(s) && CanRun(s, run) && i < |s.parts| && Faithful(s, run, i)
    ensures Attends(s, run, i)
    decreases |run|
  {
    if run != [] { FaithfulAttends(Step(s, run[0]), run[1..], i); }
  }
}

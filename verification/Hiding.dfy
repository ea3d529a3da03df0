/** A participant that waits is out of sight: whatever is done meanwhile is done as if it were blank. */
module Hiding {
  import opened Replica
  import opened Options
  import opened Protocol
  import opened Invariant
  import opened Recoveries
  import opened Durability
  import opened Mildness
  import opened Sealing

  /** `s` with participant `i` blank. */
  function Blank(s: Sys, i: nat): (t: Sys)
    requires Wf(s) && i < |s.parts|
    ensures Wf(t) && |t.parts| == |s.parts|
  {
    s.(parts := s.parts[i := INITIAL])
  }

  /** Participant `i` waits, and is not in the table of a recovery. */
  predicate Aside(s: Sys, i: nat)
    requires Wf(s) && i < |s.parts|
  {
    s.pst[i] == P_WAITING && (Recovering(s.ph) ==> i !in s.tb)
  }

  /** The action does not concern participant `i`, as long as it waits. */
  predicate Passes(a: Action, i: nat) {
    a != Crash(i) && a != Reconnect(i)
  }

  /** What is done to the blank system is done to the system, and participant `i` has no part in it. */
  ghost predicate Unseen(s: Sys, t: Sys, t': Sys, i: nat)
    requires Wf(s) && i < |s.parts|
  {
    forall x {:trigger Open(x)} :: x == s ==> UnseenIs(x, t, t', i)
  }

  ghost predicate UnseenIs(s: Sys, t: Sys, t': Sys, i: nat)
    requires Wf(s) && i < |s.parts|
  {
    && Wf(t) && |t.parts| == |s.parts| && t' == Blank(t, i) && t.parts[i] == s.parts[i] && Aside(t, i)
  }

  /** An exchange with another participant has changed participants and links only, and not those of `i`. */
  ghost predicate SentAside(s: Sys, i: nat, s1: Sys)
    requires Wf(s) && i < |s.parts|
  {
    && Wf(s1) && |s1.parts| == |s.parts| && s1.parts[i] == s.parts[i] && s1.pst[i] == s.pst[i]
    && s1 == s.(parts := s1.parts, up := s1.up, pst := s1.pst)
  }

  lemma UnseenSame(s: Sys, i: nat)
    requires Wf(s) && i < |s.parts| && Aside(s, i)
    ensures Unseen(s, s, Blank(s, i), i)
  {
    assert Open(s);
  }

  /** The coordinator has made something of an exchange with another participant. */
  lemma UnseenAfter(s: Sys, i: nat, s1: Sys, tb: map<nat, nat>, ph: Phase)
    requires Wf(s) && i < |s.parts| && Aside(s, i) && SentAside(s, i, s1) && (Recovering(ph) ==> i !in tb)
    ensures Unseen(s, s1.(tb := tb, ph := ph), Blank(s1, i).(tb := tb, ph := ph), i)
    ensures tb == s.tb ==> Unseen(s, s1.(ph := ph), Blank(s1, i).(ph := ph), i)
  {
    assert Open(s);
  }

  lemma Swapped(ps: seq<Part>, i: nat, id: nat, p: Part)
    requires i < |ps| && id < |ps| && id != i
    ensures ps[i := INITIAL][id := p] == ps[id := p][i := INITIAL]
  {
  }

  lemma CutUnseen(s: Sys, i: nat, id: nat)
    requires Wf(s) && i < |s.parts| && id < |s.parts|
    ensures Cut(Blank(s, i), id) == Blank(Cut(s, id), i)
  {
  }

  lemma SetUnseen(s: Sys, i: nat, id: nat, p: Part)
    requires Wf(s) && i < |s.parts| && id < |s.parts| && id != i
    ensures var b := Blank(s, i); b.(parts := b.parts[id := p]) == Blank(s.(parts := s.parts[id := p]), i)
  {
    Swapped(s.parts, i, id, p);
  }

  lemma LoseUnseen(s: Sys, i: nat, id: nat)
    requires Wf(s) && i < |s.parts| && id < |s.parts| && id != i
    ensures Lose(Blank(s, i), id) == Blank(Lose(s, id), i)
  {
    Swapped(s.parts, i, id, INITIAL);
  }

  lemma SentUnseen(s: Sys, i: nat, id: nat, p: Part, rc: Reply, fate: Fate)
    requires Wf(s) && i < |s.parts| && id < |s.parts| && id != i
    ensures var (s1, r) := Sent(s, id, p, rc, fate); Sent(Blank(s, i), id, p, rc, fate) == (Blank(s1, i), r)
  {
    if !s.up[id] || fate.Undelivered? {
      CutUnseen(s, i, id);
    } else if rc == AssertionFailure {
      LoseUnseen(s, i, id);
      CutUnseen(Lose(s, id), i, id);
    } else {
      SetUnseen(s, i, id, p);
      CutUnseen(s.(parts := s.parts[id := p]), i, id);
    }
  }

  lemma SentElsewhere(s: Sys, i: nat, id: nat, p: Part, rc: Reply, fate: Fate)
    requires Wf(s) && i < |s.parts| && id < |s.parts| && id != i
    ensures SentAside(s, i, Sent(s, id, p, rc, fate).0)
  {
    var s1 := Sent(s, id, p, rc, fate).0;
    SentShape(s, id, p, rc, fate);
    assert s1.parts[i] == s.parts[i] && s1.pst[i] == s.pst[i];
  }

  lemma SendUnseen(s: Sys, i: nat, id: nat, m: Log, fate: Fate) returns (s1: Sys, r: Option<Reply>)
    requires Wf(s) && i < |s.parts| && id < |s.parts| && id != i
    ensures (s1, r) == Send(s, id, m, fate) && SentAside(s, i, s1)
    ensures Send(Blank(s, i), id, m, fate) == (Blank(s1, i), r)
  {
    var a := Answer(s.parts[id], m);
    SentUnseen(s, i, id, a.0, a.1, fate);
    SentElsewhere(s, i, id, a.0, a.1, fate);
    s1, r := Send(s, id, m, fate).0, Send(s, id, m, fate).1;
  }

  lemma VoteIsVoted(s: Sys, id: nat, fate: Fate, s1: Sys, r: Option<Reply>)
    requires Wf(s) && s.ph.Vote? && id < |s.parts| && s.pst[id] == P_WORKING
    requires (s1, r) == Send(s, id, VoteRequest(s), fate)
    ensures VoteExchange(s, id, fate) == Voted(s, id, s1, r)
  {
  }

  lemma VotedUnseen(s: Sys, i: nat, id: nat, s1: Sys, r: Option<Reply>)
    requires Wf(s) && s.ph.Vote? && i < |s.parts| && id != i && Aside(s, i) && SentAside(s, i, s1)
    ensures Unseen(s, Voted(s, id, s1, r), Voted(Blank(s, i), id, Blank(s1, i), r), i)
  {
    assert Open(s);
  }

  lemma VoteUnseen(s: Sys, i: nat, id: nat, fate: Fate)
    requires Wf(s) && s.ph.Vote? && i < |s.parts| && id < |s.parts| && Aside(s, i)
    ensures Unseen(s, VoteExchange(s, id, fate), VoteExchange(Blank(s, i), id, fate), i)
  {
    if s.pst[id] != P_WORKING {
      UnseenAfter(s, i, s, s.tb, Vote(s.ph.cmd, s.ph.pending - {id}, s.ph.yes));
    } else {
      var s1, r := SendUnseen(s, i, id, VoteRequest(s), fate);
      VotedUnseen(s, i, id, s1, r);
      VoteIsVoted(s, id, fate, s1, r);
      VoteIsVoted(Blank(s, i), id, fate, Blank(s1, i), r);
    }
  }

  lemma CommitIsCounted(s: Sys, id: nat, fate: Fate, s1: Sys, r: Option<Reply>)
    requires Wf(s) && s.ph.Commit? && id < |s.parts| && s.pst[id] == P_WORKING
    requires (s1, r) == Send(s, id, CommitRequest(s, s.ph.cmd), fate)
    ensures CommitExchange(s, id, fate) == Counted(s, id, s1, r)
  {
  }

  lemma CountedUnseen(s: Sys, i: nat, id: nat, s1: Sys, r: Option<Reply>)
    requires Wf(s) && s.ph.Commit? && i < |s.parts| && id != i && Aside(s, i) && SentAside(s, i, s1)
    ensures Unseen(s, Counted(s, id, s1, r), Counted(Blank(s, i), id, Blank(s1, i), r), i)
  {
    assert Open(s);
  }

  lemma CommitUnseen(s: Sys, i: nat, id: nat, fate: Fate)
    requires Wf(s) && s.ph.Commit? && i < |s.parts| && id < |s.parts| && Aside(s, i)
    ensures Unseen(s, CommitExchange(s, id, fate), CommitExchange(Blank(s, i), id, fate), i)
  {
    if s.pst[id] != P_WORKING {
      UnseenAfter(s, i, s, s.tb, Commit(s.ph.cmd, s.ph.pending - {id}, s.ph.rets));
    } else {
      var s1, r := SendUnseen(s, i, id, CommitRequest(s, s.ph.cmd), fate);
      CountedUnseen(s, i, id, s1, r);
      CommitIsCounted(s, id, fate, s1, r);
      CommitIsCounted(Blank(s, i), id, fate, Blank(s1, i), r);
    }
  }

  lemma ReadIsShown(s: Sys, id: nat, fate: Fate, s1: Sys, r: Option<Reply>)
    requires Wf(s) && s.ph.Read? && id < |s.parts| && s.pst[id] == P_WORKING
    requires (s1, r) == Send(s, id, ReadRequest(s.ph.cmd), fate)
    ensures ReadExchange(s, id, fate) == Shown(s, s1, r)
  {
  }

  lemma ShownUnseen(s: Sys, i: nat, id: nat, s1: Sys, r: Option<Reply>)
    requires Wf(s) && s.ph.Read? && i < |s.parts| && id != i && Aside(s, i) && SentAside(s, i, s1)
    ensures Unseen(s, Shown(s, s1, r), Shown(Blank(s, i), Blank(s1, i), r), i)
  {
    assert Open(s);
  }

  lemma ReadUnseen(s: Sys, i: nat, id: nat, fate: Fate)
    requires Wf(s) && s.ph.Read? && i < |s.parts| && id < |s.parts| && Aside(s, i)
    ensures Unseen(s, ReadExchange(s, id, fate), ReadExchange(Blank(s, i), id, fate), i)
  {
    if s.pst[id] != P_WORKING {
      UnseenAfter(s, i, s, s.tb, Read(s.ph.cmd, s.ph.next + 1));
    } else {
      var s1, r := SendUnseen(s, i, id, ReadRequest(s.ph.cmd), fate);
      ShownUnseen(s, i, id, s1, r);
      ReadIsShown(s, id, fate, s1, r);
      ReadIsShown(Blank(s, i), id, fate, Blank(s1, i), r);
    }
  }

  lemma QueryIsNoted(s: Sys, id: nat, fate: Fate, s1: Sys, r: Option<Reply>)
    requires Wf(s) && s.ph.Query? && id < |s.parts| && s.pst[id] == P_RECOVERY
    requires (s1, r) == Send(s, id, Log(RECOVERY_TXID, LOG_PRE, NoEvent), fate)
    ensures QueryExchange(s, id, fate) == Noted(s, id, s1, r)
  {
  }

  lemma NotedUnseen(s: Sys, i: nat, id: nat, s1: Sys, r: Option<Reply>)
    requires Wf(s) && s.ph.Query? && i < |s.parts| && id != i && Aside(s, i) && SentAside(s, i, s1)
    ensures Unseen(s, Noted(s, id, s1, r), Noted(Blank(s, i), id, Blank(s1, i), r), i)
  {
    assert Open(s);
  }

  lemma QueryUnseen(s: Sys, i: nat, id: nat, fate: Fate)
    requires Wf(s) && s.ph.Query? && i < |s.parts| && id < |s.parts| && Aside(s, i)
    ensures Unseen(s, QueryExchange(s, id, fate), QueryExchange(Blank(s, i), id, fate), i)
  {
    if s.pst[id] != P_RECOVERY {
      UnseenAfter(s, i, s, s.tb, Query(s.ph.low, s.ph.pending - {id}, s.ph.same));
    } else {
      var s1, r := SendUnseen(s, i, id, Log(RECOVERY_TXID, LOG_PRE, NoEvent), fate);
      NotedUnseen(s, i, id, s1, r);
      QueryIsNoted(s, id, fate, s1, r);
      QueryIsNoted(Blank(s, i), id, fate, Blank(s1, i), r);
    }
  }

  lemma AskIsAsked(s: Sys, fate: Fate, s1: Sys, r: Option<Reply>)
    requires Wf(s) && s.ph.Ask? && s.ph.leader < |s.parts| && s.pst[s.ph.leader] == P_WORKING
    requires (s1, r) == Send(s, s.ph.leader, Log(ASK_DATA_TXID, LOG_COMMIT, Number(s.ph.low)), fate)
    ensures AskExchange(s, fate) == Asked(s, s1, r)
  {
  }

  lemma AskedUnseen(s: Sys, i: nat, s1: Sys, r: Option<Reply>)
    requires Wf(s) && s.ph.Ask? && i < |s.parts| && Aside(s, i) && SentAside(s, i, s1)
    ensures Unseen(s, Asked(s, s1, r), Asked(Blank(s, i), Blank(s1, i), r), i)
  {
    assert Open(s);
  }

  lemma AskUnseen(s: Sys, i: nat, fate: Fate)
    requires Wf(s) && s.ph.Ask? && i < |s.parts| && s.ph.leader < |s.parts| && Aside(s, i)
    ensures Unseen(s, AskExchange(s, fate), AskExchange(Blank(s, i), fate), i)
  {
    var id := s.ph.leader;
    if s.pst[id] != P_WORKING {
      UnseenAfter(s, i, s, s.tb, Pick(s.ph.low));
    } else {
      var s1, r := SendUnseen(s, i, id, Log(ASK_DATA_TXID, LOG_COMMIT, Number(s.ph.low)), fate);
      AskedUnseen(s, i, s1, r);
      AskIsAsked(s, fate, s1, r);
      AskIsAsked(Blank(s, i), fate, Blank(s1, i), r);
    }
  }

  lemma DeliverIsHanded(s: Sys, id: nat, e: Log, fate: Fate, s1: Sys, r: Option<Reply>)
    requires Wf(s) && id < |s.parts| && s.pst[id] == P_RECOVERY && (s1, r) == Send(s, id, e, fate)
    requires e.id < TXID_START || e.id == Entry(s.tb, id) + 1
    ensures Deliver(s, id, e, fate) == Handed(s, id, s1, r)
  {
  }

  lemma HandedUnseen(s: Sys, i: nat, id: nat, s1: Sys, r: Option<Reply>)
    requires Wf(s) && Recovering(s.ph) && i < |s.parts| && id != i && Aside(s, i) && SentAside(s, i, s1)
    ensures Unseen(s, Handed(s, id, s1, r), Handed(Blank(s, i), id, Blank(s1, i), r), i)
  {
    assert Open(s);
  }

  lemma DeliverUnseen(s: Sys, i: nat, id: nat, e: Log, fate: Fate)
    requires Wf(s) && Recovering(s.ph) && i < |s.parts| && id < |s.parts| && Aside(s, i)
    ensures Unseen(s, Deliver(s, id, e, fate), Deliver(Blank(s, i), id, e, fate), i)
  {
    UnseenSame(s, i);
    if s.pst[id] == P_RECOVERY && e.id >= TXID_START && e.id != Entry(s.tb, id) + 1 {
      UnseenAfter(s, i, s, s.tb[id := Entry(s.tb, id)], s.ph);
    } else if s.pst[id] == P_RECOVERY {
      var s1, r := SendUnseen(s, i, id, e, fate);
      HandedUnseen(s, i, id, s1, r);
      DeliverIsHanded(s, id, e, fate, s1, r);
      DeliverIsHanded(Blank(s, i), id, e, fate, Blank(s1, i), r);
    }
  }

  lemma HandUnseen(s: Sys, i: nat, id: nat, e: Log, fate: Fate, ph: Phase)
    requires Wf(s) && Recovering(s.ph) && i < |s.parts| && id < |s.parts| && Aside(s, i)
    ensures Unseen(s, Deliver(s, id, e, fate).(ph := ph), Deliver(Blank(s, i), id, e, fate).(ph := ph), i)
  {
    DeliverUnseen(s, i, id, e, fate);
    assert Open(s);
    DeliverShape(s, id, e, fate);
  }

  lemma HiddenRound(s: Sys, i: nat, id: nat, fate: Fate)
    requires Wf(s) && (s.ph.Vote? || s.ph.Commit? || s.ph.Read?) && i < |s.parts| && id < |s.parts| && Aside(s, i)
    ensures Unseen(s, ExchangeStep(s, id, fate), ExchangeStep(Blank(s, i), id, fate), i)
  {
    UnseenSame(s, i);
    match s.ph
    case Vote(_, pending, _) => if id in pending { VoteUnseen(s, i, id, fate); }
    case Commit(_, pending, _) => if id in pending { CommitUnseen(s, i, id, fate); }
    case Read(_, next) => if id == next { ReadUnseen(s, i, id, fate); }
  }

  lemma HiddenHand(s: Sys, i: nat, id: nat, fate: Fate)
    requires Wf(s) && (s.ph.Push? || s.ph.Refill?) && i < |s.parts| && id < |s.parts| && Aside(s, i)
    ensures Unseen(s, ExchangeStep(s, id, fate), ExchangeStep(Blank(s, i), id, fate), i)
  {
    UnseenSame(s, i);
    match s.ph
    case Push(leader, low, high, e, next) =>
      if id == next { HandUnseen(s, i, id, e, fate, Push(leader, low, high, e, next + 1)); }
    case Refill(tid, next) =>
      if id == next && tid < s.txid {
        if tid in s.log {
          HandUnseen(s, i, id, s.log[tid], fate, Refill(tid, next + 1));
        } else {
          UnseenAfter(s, i, s, s.tb, Failed);
        }
      }
  }

  lemma HiddenExchange(s: Sys, i: nat, id: nat, fate: Fate)
    requires Wf(s) && i < |s.parts| && id < |s.parts| && Aside(s, i)
    ensures Unseen(s, ExchangeStep(s, id, fate), ExchangeStep(Blank(s, i), id, fate), i)
  {
    UnseenSame(s, i);
    match s.ph
    case Query(_, pending, _) => if id in pending { QueryUnseen(s, i, id, fate); }
    case Ask(leader, low, high) => if leader == id && low <= high { AskUnseen(s, i, fate); }
    case Push(_, _, _, _, _) => HiddenHand(s, i, id, fate);
    case Refill(_, _) => HiddenHand(s, i, id, fate);
    case Idle(_) =>
    case Pick(_) =>
    case Failed =>
    case _ => HiddenRound(s, i, id, fate);
  }

  lemma HiddenPick(s: Sys, i: nat)
    requires Wf(s) && s.ph.Pick? && i < |s.parts| && Aside(s, i)
    ensures Unseen(s, PickLeader(s), PickLeader(Blank(s, i)), i)
  {
    assert Open(s);
    LeaderTabled(s.tb, if s.txid == 0 then 0 else s.txid - 1, |s.parts|);
  }

  lemma HiddenFinish(s: Sys, i: nat)
    requires Wf(s) && i < |s.parts| && Aside(s, i) && i !in s.tb
    ensures Unseen(s, Finish(s), Finish(Blank(s, i)), i)
  {
    assert Open(s);
    assert Finish(Blank(s, i)).pst == Finish(s).pst;
  }

  lemma HiddenCommit(s: Sys, i: nat)
    requires Wf(s) && s.ph.Commit? && i < |s.parts| && Aside(s, i)
    ensures Unseen(s, FinishCommit(s), FinishCommit(Blank(s, i)), i)
  {
    assert Open(s);
  }

  lemma HiddenRecovery(s: Sys, i: nat)
    requires Wf(s) && Recovering(s.ph) && !s.ph.Pick? && i < |s.parts| && Aside(s, i)
    ensures Unseen(s, AdvanceStep(s), AdvanceStep(Blank(s, i)), i)
  {
    HiddenFinish(s, i);
    UnseenAfter(s, i, s, s.tb, AdvanceStep(s).ph);
  }

  lemma HiddenAdvance(s: Sys, i: nat)
    requires Wf(s) && i < |s.parts| && Aside(s, i)
    ensures Unseen(s, AdvanceStep(s), AdvanceStep(Blank(s, i)), i)
  {
    UnseenSame(s, i);
    match s.ph
    case Idle(_) =>
    case Failed =>
    case Vote(_, _, _) => UnseenAfter(s, i, s, s.tb, FinishVote(s).ph);
    case Commit(_, _, _) => HiddenCommit(s, i);
    case Read(_, _) => UnseenAfter(s, i, s, s.tb, Idle(ErrorReply));
    case Pick(_) => HiddenPick(s, i);
    case _ => HiddenRecovery(s, i);
  }

  lemma HiddenOther(s: Sys, i: nat, a: Action)
    requires Wf(s) && i < |s.parts| && Aside(s, i) && Passes(a, i) && Enabled(s, a) && !a.Exchange? && !a.Advance?
    ensures Unseen(s, Step(s, a), Step(Blank(s, i), a), i)
  {
    assert Open(s);
    if a.Crash? { LoseUnseen(s, i, a.id); }
  }

  lemma HiddenStep(s: Sys, i: nat, a: Action)
    requires Wf(s) && i < |s.parts| && Aside(s, i) && Passes(a, i) && Enabled(Blank(s, i), a)
    ensures Enabled(s, a) && Unseen(s, Step(s, a), Step(Blank(s, i), a), i)
  {
    match a
    case Exchange(id, fate) => HiddenExchange(s, i, id, fate);
    case Advance => HiddenAdvance(s, i);
    case _ => HiddenOther(s, i, a);
  }

  lemma HiddenFirst(s: Sys, i: nat, a: Action)
    requires Wf(s) && i < |s.parts| && Aside(s, i) && Passes(a, i) && Enabled(Blank(s, i), a)
    ensures Enabled(s, a) && UnseenIs(s, Step(s, a), Step(Blank(s, i), a), i)
  {
    HiddenStep(s, i, a);
    assert Open(s);
  }

  /** What can be done without participant `i` can be done with it waiting, and comes to the same for everybody
      else; and `i` keeps what it has. */
  lemma {:induction false} HiddenRun(s: Sys, i: nat, run: seq<Action>)
    requires Wf(s) && i < |s.parts| && Aside(s, i) && CanRun(Blank(s, i), run)
    requires forall k {:trigger run[k]} :: 0 <= k < |run| ==> Passes(run[k], i)
    ensures CanRun(s, run) && UnseenIs(s, Run(s, run), Run(Blank(s, i), run), i)
    decreases |run|
  {
    if run != [] {
      var s2 := Step(s, run[0]);
      HiddenFirst(s, i, run[0]);
      forall k {:trigger run[1..][k]} | 0 <= k < |run| - 1 ensures Passes(run[1..][k], i) {
        assert run[1..][k] == run[k + 1];
      }
      HiddenRun(s2, i, run[1..]);
    }
  }
}

/** What the answer to a client's request means, whatever happens while the request is served. */
module Requests {
  import opened Kv
  import opened Replica
  import opened Options
  import opened Protocol
  import opened Invariant
  import opened Agreement

  /** The actions from `s` on until the coordinator is idle again, without a restart of it. */
  predicate Serving(s: Sys, run: seq<Action>)
    requires Wf(s)
    decreases |run|
  {
    if s.ph.Idle? then run == []
    else run != [] && run[0] != Restart && Enabled(s, run[0]) && Serving(Step(s, run[0]), run[1..])
  }

  lemma {:induction false} ServingRuns(s: Sys, run: seq<Action>)
    requires Wf(s) && Serving(s, run)
    ensures CanRun(s, run) && Run(s, run).ph.Idle?
    decreases |run|
  {
    if !s.ph.Idle? {
      ServingRuns(Step(s, run[0]), run[1..]);
    }
  }

  lemma {:induction false} ServingGuarded(s: Sys, run: seq<Action>)
    requires Wf(s) && Serving(s, run) && CanRun(s, run)
    ensures Guarded(s, run)
    decreases |run|
  {
    if !s.ph.Idle? {
      ServingGuarded(Step(s, run[0]), run[1..]);
    }
  }

  // ---- what a log says of the keys ----

  predicate Sets(event: Event, k: string) {
    event.Command? && |event.cmd| == 3 && Initial(event.cmd) == 'S' && event.cmd[1] == k
  }

  predicate Deletes(event: Event, k: string) {
    event.Command? && event.cmd != [] && Initial(event.cmd) == 'D' && k in event.cmd[1..]
  }

  /** The last transaction before `n` that sets or deletes `k`. */
  function LastWrite(log: map<nat, Log>, n: nat, k: string): (t: Option<nat>)
    ensures t.Some? ==>
              && TXID_START <= t.value < n && t.value in log
              && (Sets(log[t.value].event, k) || Deletes(log[t.value].event, k))
    ensures forall u {:trigger u in log} :: (if t.Some? then t.value + 1 else TXID_START) <= u < n && u in log ==>
              !Sets(log[u].event, k) && !Deletes(log[u].event, k)
  {
    if n <= TXID_START then None
    else if n - 1 in log && (Sets(log[n - 1].event, k) || Deletes(log[n - 1].event, k)) then Some(n - 1)
    else LastWrite(log, n - 1, k)
  }

  /** What the last write of `k` before transaction `n` left. */
  function LastValue(log: map<nat, Log>, n: nat, k: string): string {
    match LastWrite(log, n, k)
    case None => "nil"
    case Some(t) => if Sets(log[t].event, k) then log[t].event.cmd[2] else "nil"
  }

  lemma TouchedByOne(kv: Store, event: Event, k: string)
    ensures var kv2 := Execute(kv, event).0;
      if Sets(event, k) then k in kv2 && kv2[k] == event.cmd[2]
      else if Deletes(event, k) then k !in kv2
      else (k in kv2 <==> k in kv) && (k in kv ==> kv2[k] == kv[k])
  {
    if event.Command? && event.cmd != [] && Initial(event.cmd) == 'D' {
      DeleteAllEffect(kv, event.cmd[1..]);
    }
  }

  /** The map has the value of the last write, for every log. */
  lemma {:induction false} ReplayLooksUp(log: map<nat, Log>, n: nat, k: string)
    ensures Lookup(Replay(log, n), k) == LastValue(log, n, k)
    ensures k in Replay(log, n) <==> LastWrite(log, n, k).Some? && Sets(log[LastWrite(log, n, k).value].event, k)
  {
    if n > TXID_START {
      ReplayLooksUp(log, n - 1, k);
      if n - 1 in log { TouchedByOne(Replay(log, n - 1), log[n - 1].event, k); }
    }
  }

  // ---- the answer to a write ----

  /** A SET names a key and a value, a DEL any number of keys. */
  predicate WellFormed(cmd: seq<string>) {
    cmd != [] && ((cmd[0] == "SET" && |cmd| == 3) || cmd[0] == "DEL")
  }

  lemma WritesAccepted(cmd: seq<string>)
    requires IsWrite(cmd)
    ensures Accepted(Command(cmd)) <==> WellFormed(cmd)
  {
    assert Initial(cmd) == cmd[0][0];
  }

  /** The listed keys whose last write before transaction `n` is a SET. */
  ghost function Held(log: map<nat, Log>, n: nat, ks: seq<string>): set<string> {
    set k | k in ks && LastWrite(log, n, k).Some? && Sets(log[LastWrite(log, n, k).value].event, k)
  }

  /** The right answer to a well-formed write that comes after the transactions before `n`. */
  ghost predicate RightReply(log: map<nat, Log>, n: nat, cmd: seq<string>, r: Reply) {
    && (cmd != [] && cmd[0] == "SET" && |cmd| == 3 ==> r == OkReply)
    && (cmd != [] && cmd[0] == "DEL" ==> r == CountReply(|Held(log, n, cmd[1..])|))
  }

  lemma OutcomeIsRight(s: Sys, cmd: seq<string>)
    requires cmd != []
    ensures RightReply(s.log, s.txid, cmd, Outcome(s, cmd))
  {
    ExecuteServes(Replay(s.log, s.txid), cmd);
    if cmd != [] && cmd[0] == "DEL" {
      HeldKeys(s.log, s.txid, cmd[1..]);
    }
  }

  lemma HeldKeys(log: map<nat, Log>, n: nat, ks: seq<string>)
    ensures Replay(log, n).Keys * Keys(ks) == Held(log, n, ks)
  {
    forall k ensures k in Replay(log, n).Keys * Keys(ks) <==> k in Held(log, n, ks) {
      ReplayLooksUp(log, n, k);
    }
  }

  // ---- updates ----

  /** The update `cmd` that began in `s0` is in progress. */
  ghost predicate Updating(s0: Sys, cmd: seq<string>, s: Sys) {
    && ((s.ph.Vote? && s.ph.cmd == cmd) || (s.ph.Commit? && s.ph.cmd == cmd))
    && IsWrite(cmd) && s.txid == s0.txid && s.log == s0.log[s0.txid := Log(s0.txid, LOG_PRE, Command(cmd))]
  }

  /** What the client of the update `cmd`, begun in `s0` and over in `s`, can rely on.
      - After an answer that is not an error `cmd` is the next committed transaction of the coordinator, and
        every working participant whose link holds has logged it as committed and executed it.  If the logs
        are in agreement, it is the right answer after all transactions committed before: for a SET that it is
        done, for a DEL how many of the keys were there.
      - After an error no working participant with a link has executed it; and if it was a well-formed
        command, no such participant is left.  If the logs are in agreement, whoever is ahead of the
        coordinator has executed just this command, and its answer has been lost. */
  ghost predicate UpdateMeans(s0: Sys, cmd: seq<string>, s: Sys, agreed: bool)
    requires Wf(s)
  {
    var e := Log(s0.txid, LOG_COMMIT, Command(cmd));
    && s.ph.Idle?
    && (forall t {:trigger t in s.log} :: TXID_START <= t < s0.txid && t in s0.log ==>
        t in s.log && s.log[t] == s0.log[t])
    && if s.ph.reply == ErrorReply then
         && s.txid == s0.txid
         && (forall i {:trigger s.parts[i]} :: 0 <= i < |s.parts| && Live(s, i) ==>
               s.parts[i].txid == s.txid && !WellFormed(cmd))
         && (agreed ==> forall i {:trigger s.parts[i]} :: 0 <= i < |s.parts| && s.parts[i].txid > s.txid ==>
               s.txid in s.parts[i].log && s.parts[i].log[s.txid] == e)
       else
         && WellFormed(cmd) && (agreed ==> RightReply(s0.log, s0.txid, cmd, s.ph.reply))
         && s.txid == s0.txid + 1 && s0.txid in s.log && s.log[s0.txid] == e
         && forall i {:trigger s.parts[i]} :: 0 <= i < |s.parts| && Live(s, i) ==>
              s.parts[i].txid == s.txid && s0.txid in s.parts[i].log && s.parts[i].log[s0.txid] == e
  }

  lemma SameOutcome(s0: Sys, cmd: seq<string>, s: Sys)
    requires Updating(s0, cmd, s)
    ensures Outcome(s, cmd) == Outcome(s0, cmd)
  {
    ReplayLater(s0.log, s0.txid, Log(s0.txid, LOG_PRE, Command(cmd)), s0.txid);
  }

  /** An entry of a later transaction has no effect on a replay. */
  lemma {:induction false} ReplayLater(log: map<nat, Log>, t: nat, e: Log, n: nat)
    requires n <= t
    ensures Replay(log[t := e], n) == Replay(log, n)
  {
    if n > TXID_START {
      ReplayLater(log, t, e, n - 1);
    }
  }

  lemma VoteOver(s0: Sys, cmd: seq<string>, s: Sys, W: Master)
    requires Inv(s, W) && s.ph.Vote? && s.ph.pending == {} && Updating(s0, cmd, s)
    ensures if s.ph.yes then Updating(s0, cmd, FinishVote(s)) else UpdateMeans(s0, cmd, FinishVote(s), W.Some?)
  {
    var s2 := FinishVote(s);
    if !s.ph.yes {
      forall i {:trigger s2.parts[i]} | 0 <= i < |s2.parts|
        ensures !Live(s2, i)
        ensures W.Some? && s2.parts[i].txid > s2.txid ==>
                  s2.txid in s2.parts[i].log && s2.parts[i].log[s2.txid] == Log(s0.txid, LOG_COMMIT, Command(cmd))
      {
        assert PhasePart(s, i);
        if W.Some? { assert FitsPart(s, cmd, i); }
      }
    }
  }

  lemma CommitOver(s0: Sys, cmd: seq<string>, s: Sys, W: Master)
    requires Inv(s, W) && s.ph.Commit? && s.ph.pending == {} && Updating(s0, cmd, s)
    ensures UpdateMeans(s0, cmd, FinishCommit(s), W.Some?)
  {
    var s2 := FinishCommit(s);
    LastSuccessFacts(s.ph.rets, |s.parts|);
    SameOutcome(s0, cmd, s);
    OutcomeIsRight(s0, cmd);
    WritesAccepted(cmd);
    if LastSuccess(s.ph.rets, |s.parts|).None? {
      forall i | 0 <= i < |s.parts|
        ensures Live(s2, i) ==> s2.parts[i].txid == s2.txid && !WellFormed(cmd)
        ensures W.Some? ==> FitsPart(s, cmd, i)
      {
        CommitOutcome(s, W, i);
      }
    } else {
      forall i | 0 <= i < |s.parts| && Live(s2, i)
        ensures s2.parts[i].txid == s2.txid && s0.txid in s2.parts[i].log
        ensures s2.parts[i].log[s0.txid] == CommitRequest(s, cmd)
      {
        CommitOutcome(s, W, i);
        assert PhasePart(s, i);
      }
    }
  }

  /** In a round an exchange takes its worker off the list, and leaves the command and the coordinator's log. */
  lemma RoundKeeps(s: Sys, id: nat, fate: Fate)
    requires Wf(s) && (s.ph.Vote? || s.ph.Commit?) && id in s.ph.pending && id < |s.parts|
    ensures var t := ExchangeStep(s, id, fate);
      && t.txid == s.txid && t.log == s.log
      && if s.ph.Vote? then t.ph.Vote? && t.ph.cmd == s.ph.cmd && t.ph.pending == s.ph.pending - {id}
         else t.ph.Commit? && t.ph.cmd == s.ph.cmd && t.ph.pending == s.ph.pending - {id}
  {
    if s.ph.Vote? {
      SendShape(s, id, VoteRequest(s), fate);
      assert ExchangeStep(s, id, fate) == VoteExchange(s, id, fate);
    } else {
      SendShape(s, id, CommitRequest(s, s.ph.cmd), fate);
      assert ExchangeStep(s, id, fate) == CommitExchange(s, id, fate);
    }
  }

  lemma UpdateStep(s0: Sys, cmd: seq<string>, s: Sys, W: Master, a: Action)
    requires Inv(s, W) && Updating(s0, cmd, s) && Enabled(s, a) && a != Restart
    ensures var s2 := Step(s, a); Updating(s0, cmd, s2) || UpdateMeans(s0, cmd, s2, W.Some?)
  {
    if a.Exchange? {
      if a.id in s.ph.pending { RoundKeeps(s, a.id, a.fate); }
    } else if a.Advance? {
      if s.ph.Vote? {
        if s.ph.pending == {} { VoteOver(s0, cmd, s, W); }
      } else {
        if s.ph.pending == {} { CommitOver(s0, cmd, s, W); }
      }
    }
  }

  lemma {:induction false} UpdateRuns(s0: Sys, cmd: seq<string>, s: Sys, W: Master, run: seq<Action>)
    requires Inv(s, W) && Serving(s, run) && CanRun(s, run)
    requires Updating(s0, cmd, s) || UpdateMeans(s0, cmd, s, W.Some?)
    ensures UpdateMeans(s0, cmd, Run(s, run), W.Some?)
    decreases |run|
  {
    if !s.ph.Idle? {
      UpdateStep(s0, cmd, s, W, run[0]);
      var W2 := StepInv(s, W, run[0]);
      UpdateRuns(s0, cmd, Step(s, run[0]), W2, run[1..]);
    }
  }

  /** After any run, whatever happens while the update is served. */
  lemma {:induction false} UpdateReply(n: nat, before: seq<Action>, cmd: seq<string>, run: seq<Action>)
    requires CanRun(Init(n), before) && Enabled(Run(Init(n), before), StartUpdate(cmd))
    requires Serving(Step(Run(Init(n), before), StartUpdate(cmd)), run)
    ensures var s0 := Run(Init(n), before);
      && CanRun(Step(s0, StartUpdate(cmd)), run)
      && UpdateMeans(s0, cmd, Run(Step(s0, StartUpdate(cmd)), run), Guarded(Init(n), before) && Fits(s0, cmd))
  {
    var s0 := Run(Init(n), before);
    var s := Step(s0, StartUpdate(cmd));
    InitInv(n);
    var W := RunInv(Init(n), Some(map[]), before);
    W := StepInv(s0, W, StartUpdate(cmd));
    ServingRuns(s, run);
    UpdateRuns(s0, cmd, s, W, run);
  }

  // ---- reads ----

  /** The answer to the read `cmd` that began in `s0` and is over in `s`: for a well-formed command a value, and
      if the logs are in agreement that of the last committed write of the key, whichever participant
      answered; an error only if no working participant with a link is left.  Nothing is written. */
  ghost predicate ReadMeans(s0: Sys, cmd: seq<string>, s: Sys, agreed: bool)
    requires Wf(s)
  {
    && s.ph.Idle? && s.txid == s0.txid && s.log == s0.log
    && if |cmd| != 2 then s.ph.reply == ErrorReply
       else
         || (s.ph.reply.ValueReply? && (agreed ==> s.ph.reply.v == LastValue(s0.log, s0.txid, cmd[1])))
         || (s.ph.reply == ErrorReply && forall i {:trigger s.parts[i]} :: 0 <= i < |s.parts| ==> !Live(s, i))
  }

  ghost predicate Reading(s0: Sys, cmd: seq<string>, s: Sys) {
    s.ph.Read? && s.ph.cmd == cmd && s.txid == s0.txid && s.log == s0.log
  }

  lemma ReadAnswer(s0: Sys, cmd: seq<string>, s: Sys, W: Master, fate: Fate)
    requires Inv(s, W) && Reading(s0, cmd, s) && s.ph.next < |s.parts|
    ensures var s2 := ReadExchange(s, s.ph.next, fate); Reading(s0, cmd, s2) || ReadMeans(s0, cmd, s2, W.Some?)
  {
    var id := s.ph.next;
    assert PhasePart(s, id);
    ReadPeeks(s, id);
    SendPeek(s, id, Log(SUPER_TXID, LOG_COMMIT, Command(cmd)), fate);
    if Live(s, id) { ReaderAnswers(s, W, id, cmd); }
  }

  /** What a participant that has the coordinator's log answers to a read. */
  lemma ReaderAnswers(s: Sys, W: Master, id: nat, cmd: seq<string>)
    requires Base(s, W) && id < |s.parts| && s.parts[id].txid == s.txid && IsRead(cmd)
    ensures var rc := Answer(s.parts[id], Log(SUPER_TXID, LOG_COMMIT, Command(cmd))).1;
      if |cmd| != 2 then rc == ErrorReply
      else rc.ValueReply? && (W.Some? ==> rc.v == LastValue(s.log, s.txid, cmd[1]))
  {
    assert Initial(cmd) == 'G';
    if |cmd| == 2 && W.Some? {
      SameId(s, W, id);
      ReplayLooksUp(s.log, s.txid, cmd[1]);
    }
  }

  lemma ReadStep(s0: Sys, cmd: seq<string>, s: Sys, W: Master, a: Action)
    requires Inv(s, W) && Reading(s0, cmd, s) && Enabled(s, a) && a != Restart
    ensures var s2 := Step(s, a); Reading(s0, cmd, s2) || ReadMeans(s0, cmd, s2, W.Some?)
  {
    if a.Exchange? && a.id == s.ph.next {
      ReadAnswer(s0, cmd, s, W, a.fate);
    }
    if a.Advance? && s.ph.next >= |s.parts| {
      var s2 := s.(ph := Idle(ErrorReply));
      forall i | 0 <= i < |s2.parts| ensures !Live(s2, i) {
        assert PhasePart(s, i);
      }
    }
  }

  lemma {:induction false} ReadRuns(s0: Sys, cmd: seq<string>, s: Sys, W: Master, run: seq<Action>)
    requires Inv(s, W) && Serving(s, run) && CanRun(s, run) && (Reading(s0, cmd, s) || ReadMeans(s0, cmd, s, W.Some?))
    ensures ReadMeans(s0, cmd, Run(s, run), W.Some?)
    decreases |run|
  {
    if !s.ph.Idle? {
      ReadStep(s0, cmd, s, W, run[0]);
      var W2 := StepInv(s, W, run[0]);
      ReadRuns(s0, cmd, Step(s, run[0]), W2, run[1..]);
    }
  }

  /** Reads are linearizable: after any run whose updates began where they fitted, whatever happens while the read
      is served. */
  lemma {:induction false} ReadReply(n: nat, before: seq<Action>, cmd: seq<string>, run: seq<Action>)
    requires CanRun(Init(n), before) && Enabled(Run(Init(n), before), StartRead(cmd))
    requires Serving(Step(Run(Init(n), before), StartRead(cmd)), run)
    ensures var s0 := Run(Init(n), before);
      && CanRun(Step(s0, StartRead(cmd)), run)
      && ReadMeans(s0, cmd, Run(Step(s0, StartRead(cmd)), run), Guarded(Init(n), before))
  {
    var s0 := Run(Init(n), before);
    var s := Step(s0, StartRead(cmd));
    InitInv(n);
    var W := RunInv(Init(n), Some(map[]), before);
    StartReadInv(s0, W, cmd);
    ServingRuns(s, run);
    ReadRuns(s0, cmd, s, W, run);
  }
}

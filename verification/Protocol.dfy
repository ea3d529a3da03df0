/** The coordinator and its participants as a step system.  One step is one exchange with one
    participant, one move of the coordinator between exchanges, or one thing the environment does:
    a crash, a reconnection, a restart of the coordinator. */
module Protocol {
  import opened Replica

  datatype PState = P_WORKING | P_RECOVERY | P_WAITING | P_TEMP

  import opened Options

  /** Where the coordinator is.
      - `Idle`: between operations; `reply` is the answer to the last client request.
      - `Vote`, `Commit`: the two rounds of an update; the workers of the participants in `pending` have
        still to do their exchange.
      - `Read`: a read request, asked of the participants in order.
      - `Query`: the round that builds the table of transaction ids; `low` is the id read before it, and
        `same` whether all answers so far equal the coordinator's own.
      - `Pick`, `Ask`, `Push`: recovery from a leader whose log ends at `high`, at transaction `low`.
      - `Refill`: recovery from the coordinator's own log, at transaction `tid`.
      - `Failed`: a presence assertion of the coordinator's log has failed. */
  datatype Phase =
    | Idle(reply: Reply)
    | Vote(cmd: seq<string>, pending: set<nat>, yes: bool)
    | Commit(cmd: seq<string>, pending: set<nat>, rets: map<nat, Reply>)
    | Read(cmd: seq<string>, next: nat)
    | Query(low: nat, pending: set<nat>, same: bool)
    | Pick(low: nat)
    | Ask(leader: nat, low: nat, high: nat)
    | Push(leader: nat, low: nat, high: nat, entry: Log, next: nat)
    | Refill(tid: nat, next: nat)
    | Failed

  /** `up[i]` says that the coordinator's link to participant `i` works.  `serving` is the coordinator's
      working state; `restarted` says that no recovery has begun since the coordinator started. */
  datatype Sys = Sys(parts: seq<Part>, up: seq<bool>, pst: seq<PState>,
                     txid: nat, log: map<nat, Log>, tb: map<nat, nat>,
                     serving: bool, restarted: bool, ph: Phase)

  /** What becomes of an exchange: message and answer arrive, the message is executed and its answer is lost,
      or the message does not arrive. */
  datatype Fate = Heard | Unheard | Undelivered

  datatype Action =
    | StartUpdate(cmd: seq<string>) | StartRead(cmd: seq<string>) | StartRecovery(low: nat)
    | Exchange(id: nat, fate: Fate) | Advance
    | Crash(id: nat) | Reconnect(id: nat) | Restart

  predicate Wf(s: Sys) {
    |s.up| == |s.parts| && |s.pst| == |s.parts|
  }

  function Ids(n: nat): (s: set<nat>)
    ensures forall i: nat {:trigger i in s} :: i in s <==> i < n
  {
    if n == 0 then {} else Ids(n - 1) + {n - 1}
  }

  function Init(n: nat): Sys {
    Sys(seq(n, _ => INITIAL), seq(n, _ => false), seq(n, _ => P_WAITING),
        TXID_START, map[], map[], false, true, Idle(NoReply))
  }

  // ---- one exchange ----

  /** The participant is lost: its memory is gone and its link is down. */
  function Lose(s: Sys, id: nat): (s2: Sys)
    requires Wf(s) && id < |s.parts|
    ensures Wf(s2) && |s2.parts| == |s.parts|
  {
    s.(parts := s.parts[id := INITIAL], up := s.up[id := false])
  }

  /** The coordinator closes its link to the participant, which has to be connected again. */
  function Cut(s: Sys, id: nat): (s2: Sys)
    requires Wf(s) && id < |s.parts|
    ensures Wf(s2) && |s2.parts| == |s.parts|
  {
    s.(up := s.up[id := false], pst := s.pst[id := P_WAITING])
  }

  /** The participant executes `m`. */
  function Executed(s: Sys, id: nat, m: Log): (s2: Sys)
    requires Wf(s) && id < |s.parts|
    ensures Wf(s2) && |s2.parts| == |s.parts|
  {
    s.(parts := s.parts[id := Answer(s.parts[id], m).0])
  }

  /** What an exchange comes to, if the participant would answer `rc` and then be `p`.  When message or answer
      is lost the link is closed, but the participant keeps what it has; one whose presence assertion fails is
      gone. */
  function Sent(s: Sys, id: nat, p: Part, rc: Reply, fate: Fate): (r: (Sys, Option<Reply>))
    requires Wf(s) && id < |s.parts|
    ensures Wf(r.0) && |r.0.parts| == |s.parts|
  {
    if !s.up[id] || fate.Undelivered? then (Cut(s, id), None)
    else if rc == AssertionFailure then (Cut(Lose(s, id), id), None)
    else if fate.Unheard? then (Cut(s.(parts := s.parts[id := p]), id), None)
    else (s.(parts := s.parts[id := p]), Some(rc))
  }

  /** Send `m` and wait for the answer. */
  function Send(s: Sys, id: nat, m: Log, fate: Fate): (r: (Sys, Option<Reply>))
    requires Wf(s) && id < |s.parts|
    ensures Wf(r.0) && |r.0.parts| == |s.parts|
  {
    var a := Answer(s.parts[id], m);
    Sent(s, id, a.0, a.1, fate)
  }

  // ---- updates and reads ----

  function VoteRequest(s: Sys): Log {
    Log(s.txid, LOG_PRE, NoEvent)
  }

  function CommitRequest(s: Sys, cmd: seq<string>): Log {
    Log(s.txid, LOG_COMMIT, Command(cmd))
  }

  /** What the coordinator makes of a vote. */
  function Voted(s: Sys, id: nat, s1: Sys, r: Option<Reply>): (s2: Sys)
    requires s.ph.Vote?
  {
    s1.(ph := Vote(s.ph.cmd, s.ph.pending - {id}, s.ph.yes || r == Some(PreReply)))
  }

  function VoteExchange(s: Sys, id: nat, fate: Fate): (s2: Sys)
    requires Wf(s) && s.ph.Vote? && id < |s.parts|
    ensures Wf(s2) && |s2.parts| == |s.parts|
  {
    if s.pst[id] != P_WORKING then s.(ph := Vote(s.ph.cmd, s.ph.pending - {id}, s.ph.yes))
    else
      var (s1, r) := Send(s, id, VoteRequest(s), fate);
      Voted(s, id, s1, r)
  }

  /** What the coordinator makes of the answer to a commit. */
  function Counted(s: Sys, id: nat, s1: Sys, r: Option<Reply>): (s2: Sys)
    requires s.ph.Commit?
  {
    s1.(ph := Commit(s.ph.cmd, s.ph.pending - {id}, if r.Some? then s.ph.rets[id := r.value] else s.ph.rets))
  }

  function CommitExchange(s: Sys, id: nat, fate: Fate): (s2: Sys)
    requires Wf(s) && s.ph.Commit? && id < |s.parts|
    ensures Wf(s2) && |s2.parts| == |s.parts|
  {
    if s.pst[id] != P_WORKING then s.(ph := Commit(s.ph.cmd, s.ph.pending - {id}, s.ph.rets))
    else
      var (s1, r) := Send(s, id, CommitRequest(s, s.ph.cmd), fate);
      Counted(s, id, s1, r)
  }

  /** The last of the first `n` answers that is not an error. */
  function LastSuccess(rets: map<nat, Reply>, n: nat): Option<Reply> {
    if n == 0 then None
    else if n - 1 in rets && rets[n - 1] != ErrorReply then Some(rets[n - 1])
    else LastSuccess(rets, n - 1)
  }

  function FinishVote(s: Sys): (s2: Sys)
    requires Wf(s) && s.ph.Vote?
    ensures Wf(s2) && |s2.parts| == |s.parts|
  {
    if s.ph.yes then s.(ph := Commit(s.ph.cmd, Ids(|s.parts|), map[])) else s.(ph := Idle(ErrorReply))
  }

  function FinishCommit(s: Sys): (s2: Sys)
    requires Wf(s) && s.ph.Commit?
    ensures Wf(s2) && |s2.parts| == |s.parts|
  {
    match LastSuccess(s.ph.rets, |s.parts|)
    case None => s.(ph := Idle(ErrorReply))
    case Some(rc) =>
      if s.txid !in s.log then s.(ph := Failed)
      else s.(log := s.log[s.txid := s.log[s.txid].(state := LOG_COMMIT)], txid := s.txid + 1, ph := Idle(rc))
  }

  /** What the coordinator makes of the answer to a read. */
  function Shown(s: Sys, s1: Sys, r: Option<Reply>): (s2: Sys)
    requires s.ph.Read?
  {
    if r.Some? && r.value != NoReply then s1.(ph := Idle(r.value)) else s1.(ph := Read(s.ph.cmd, s.ph.next + 1))
  }

  function ReadExchange(s: Sys, id: nat, fate: Fate): (s2: Sys)
    requires Wf(s) && s.ph.Read? && id < |s.parts|
    ensures Wf(s2) && |s2.parts| == |s.parts|
  {
    if s.pst[id] != P_WORKING then s.(ph := Read(s.ph.cmd, s.ph.next + 1))
    else
      var (s1, r) := Send(s, id, Log(SUPER_TXID, LOG_COMMIT, Command(s.ph.cmd)), fate);
      Shown(s, s1, r)
  }

  // ---- recovery ----

  /** What the coordinator makes of a participant's transaction id. */
  function Noted(s: Sys, id: nat, s1: Sys, r: Option<Reply>): (s2: Sys)
    requires s.ph.Query?
  {
    var left := s.ph.pending - {id};
    if r.Some? && r.value.TxidReply? then
      s1.(tb := s.tb[id := r.value.t], ph := Query(s.ph.low, left, s.ph.same && r.value.t == s.txid - 1))
    else s1.(tb := s.tb - {id}, ph := Query(s.ph.low, left, s.ph.same))
  }

  function QueryExchange(s: Sys, id: nat, fate: Fate): (s2: Sys)
    requires Wf(s) && s.ph.Query? && id < |s.parts|
    ensures Wf(s2) && |s2.parts| == |s.parts|
  {
    if s.pst[id] != P_RECOVERY then s.(ph := Query(s.ph.low, s.ph.pending - {id}, s.ph.same))
    else
      var (s1, r) := Send(s, id, Log(RECOVERY_TXID, LOG_PRE, NoEvent), fate);
      Noted(s, id, s1, r)
  }

  /** The least of `m` and the table's entries for the first `n` participants. */
  function Least(tb: map<nat, nat>, m: nat, n: nat): nat {
    if n == 0 then m
    else
      var l := Least(tb, m, n - 1);
      if n - 1 in tb && tb[n - 1] < l then tb[n - 1] else l
  }

  /** The first participant with the greatest entry above `best`, scanning the first `n`. */
  function Leader(tb: map<nat, nat>, best: nat, n: nat): (Option<nat>, nat) {
    if n == 0 then (None, best)
    else
      var (p, m) := Leader(tb, best, n - 1);
      if n - 1 in tb && tb[n - 1] > m then (Some(n - 1), tb[n - 1]) else (p, m)
  }

  /** Everybody the table shows up to date is working again. */
  function Finish(s: Sys): (s2: Sys)
    requires Wf(s)
    ensures Wf(s2) && |s2.parts| == |s.parts|
  {
    s.(pst := seq(|s.pst|, i requires 0 <= i < |s.pst| =>
                if i in s.tb && s.tb[i] + 1 == s.txid then P_WORKING else s.pst[i]),
       serving := true, ph := Idle(NoReply))
  }

  function FinishQuery(s: Sys): (s2: Sys)
    requires Wf(s) && s.ph.Query?
    ensures Wf(s2) && |s2.parts| == |s.parts|
  {
    if s.ph.same then Finish(s) else s.(ph := Pick(Least(s.tb, s.ph.low, |s.parts|) + 1))
  }

  function PickLeader(s: Sys): (s2: Sys)
    requires Wf(s) && s.ph.Pick?
    ensures Wf(s2) && |s2.parts| == |s.parts|
  {
    var (p, high) := Leader(s.tb, if s.txid == 0 then 0 else s.txid - 1, |s.parts|);
    match p
    case None => s.(ph := Refill(TXID_START, 0))
    case Some(leader) =>
      if leader >= |s.pst| then s
      else s.(pst := s.pst[leader := P_WORKING], tb := s.tb - {leader}, ph := Ask(leader, s.ph.low, high))
  }

  /** What the coordinator makes of the leader's answer. */
  function Asked(s: Sys, s1: Sys, r: Option<Reply>): (s2: Sys)
    requires s.ph.Ask?
  {
    if r.Some? && r.value.LogReply? then
      var e := r.value.l;
      var s2 := if e.id == s.txid then s1.(log := s.log[e.id := e], txid := s.txid + 1) else s1;
      s2.(ph := Push(s.ph.leader, s.ph.low, s.ph.high, e, 0))
    else s1.(ph := Pick(s.ph.low))
  }

  function AskExchange(s: Sys, fate: Fate): (s2: Sys)
    requires Wf(s) && s.ph.Ask? && s.ph.leader < |s.parts|
    ensures Wf(s2) && |s2.parts| == |s.parts|
  {
    var id := s.ph.leader;
    if s.pst[id] != P_WORKING then s.(ph := Pick(s.ph.low))
    else
      var (s1, r) := Send(s, id, Log(ASK_DATA_TXID, LOG_COMMIT, Number(s.ph.low)), fate);
      Asked(s, s1, r)
  }

  function Entry(tb: map<nat, nat>, id: nat): nat {
    if id in tb then tb[id] else 0
  }

  /** What the coordinator makes of the answer to a handed entry. */
  function Handed(s: Sys, id: nat, s1: Sys, r: Option<Reply>): (s2: Sys) {
    if r.None? then s1.(tb := s.tb - {id})
    else if r.value != ErrorReply then s1.(tb := s.tb[id := Entry(s.tb, id) + 1])
    else s1
  }

  /** Hand entry `e` to participant `id` if it is the next one it lacks. */
  function Deliver(s: Sys, id: nat, e: Log, fate: Fate): (s2: Sys)
    requires Wf(s) && id < |s.parts|
    ensures Wf(s2) && |s2.parts| == |s.parts|
  {
    if s.pst[id] != P_RECOVERY then s
    else if e.id >= TXID_START && e.id != Entry(s.tb, id) + 1 then s.(tb := s.tb[id := Entry(s.tb, id)])
    else
      var (s1, r) := Send(s, id, e, fate);
      Handed(s, id, s1, r)
  }

  // ---- the step function ----

  function ExchangeStep(s: Sys, id: nat, fate: Fate): (s2: Sys)
    requires Wf(s) && id < |s.parts|
    ensures Wf(s2) && |s2.parts| == |s.parts|
  {
    match s.ph
    case Vote(_, pending, _) => if id in pending then VoteExchange(s, id, fate) else s
    case Commit(_, pending, _) => if id in pending then CommitExchange(s, id, fate) else s
    case Read(_, next) => if id == next then ReadExchange(s, id, fate) else s
    case Query(_, pending, _) => if id in pending then QueryExchange(s, id, fate) else s
    case Ask(leader, low, high) => if id == leader && low <= high then AskExchange(s, fate) else s
    case Push(leader, low, high, e, next) =>
      if id == next then Deliver(s, id, e, fate).(ph := Push(leader, low, high, e, next + 1)) else s
    case Refill(tid, next) =>
      if id != next || tid >= s.txid then s
      else if tid !in s.log then s.(ph := Failed)
      else Deliver(s, id, s.log[tid], fate).(ph := Refill(tid, next + 1))
    case _ => s
  }

  function AdvanceStep(s: Sys): (s2: Sys)
    requires Wf(s)
    ensures Wf(s2) && |s2.parts| == |s.parts|
  {
    match s.ph
    case Vote(_, pending, _) => if pending == {} then FinishVote(s) else s
    case Commit(_, pending, _) => if pending == {} then FinishCommit(s) else s
    case Read(_, next) => if next >= |s.parts| then s.(ph := Idle(ErrorReply)) else s
    case Query(_, pending, _) => if pending == {} then FinishQuery(s) else s
    case Pick(_) => PickLeader(s)
    case Ask(_, low, high) => if low > high then s.(ph := Pick(low)) else s
    case Push(leader, low, high, _, next) => if next >= |s.parts| then s.(ph := Ask(leader, low + 1, high)) else s
    case Refill(tid, next) =>
      if tid >= s.txid then Finish(s)
      else if next >= |s.parts| then s.(ph := Refill(tid + 1, 0))
      else s
    case _ => s
  }

  predicate IsWrite(cmd: seq<string>) {
    cmd != [] && (cmd[0] == "SET" || cmd[0] == "DEL")
  }

  predicate IsRead(cmd: seq<string>) {
    cmd != [] && cmd[0] == "GET"
  }

  predicate Recovering(ph: Phase) {
    ph.Query? || ph.Pick? || ph.Ask? || ph.Push? || ph.Refill?
  }

  /** When an action can happen.  A client's request needs a serving coordinator; a recovery starts with the
      transaction id the coordinator had at some earlier moment. */
  predicate Enabled(s: Sys, a: Action)
    requires Wf(s)
  {
    match a
    case StartUpdate(cmd) => s.ph.Idle? && s.serving && IsWrite(cmd)
    case StartRead(cmd) => s.ph.Idle? && s.serving && IsRead(cmd)
    case StartRecovery(low) => s.ph.Idle? && TXID_START <= low + 1 <= s.txid
    case Exchange(id, _) => id < |s.parts|
    case Advance => true
    case Crash(id) => id < |s.parts|
    case Reconnect(id) => id < |s.parts| && s.pst[id] == P_WAITING && !Recovering(s.ph)
    case Restart => true
  }

  function Step(s: Sys, a: Action): (s2: Sys)
    requires Wf(s) && Enabled(s, a)
    ensures Wf(s2) && |s2.parts| == |s.parts|
  {
    match a
    case StartUpdate(cmd) =>
      s.(log := s.log[s.txid := Log(s.txid, LOG_PRE, Command(cmd))], ph := Vote(cmd, Ids(|s.parts|), false))
    case StartRead(cmd) => s.(ph := Read(cmd, 0))
    case StartRecovery(low) =>
      s.(pst := seq(|s.pst|, i requires 0 <= i < |s.pst| =>
           if s.pst[i] == P_TEMP || s.pst[i] == P_WORKING then P_RECOVERY else s.pst[i]),
         tb := map[], serving := false, restarted := false, ph := Query(low, Ids(|s.parts|), true))
    case Exchange(id, fate) => ExchangeStep(s, id, fate)
    case Advance => AdvanceStep(s)
    case Crash(id) => Lose(s, id)
    case Reconnect(id) => s.(up := s.up[id := true], pst := s.pst[id := P_TEMP])
    case Restart =>
      Sys(s.parts, seq(|s.parts|, _ => false), seq(|s.parts|, _ => P_WAITING),
          TXID_START, map[], map[], false, true, Idle(NoReply))
  }

  // ---- runs ----

  predicate CanRun(s: Sys, run: seq<Action>)
    requires Wf(s)
    decreases |run|
  {
    run == [] || (Enabled(s, run[0]) && CanRun(Step(s, run[0]), run[1..]))
  }

  function Run(s: Sys, run: seq<Action>): (s2: Sys)
    requires Wf(s) && CanRun(s, run)
    ensures Wf(s2) && |s2.parts| == |s.parts|
    decreases |run|
  {
    if run == [] then s else Run(Step(s, run[0]), run[1..])
  }

  // ---- participants ahead of the coordinator ----

  /** If participant `i` is ahead of the coordinator, it has `cmd` as the transaction of the coordinator's id. */
  predicate FitsPart(s: Sys, cmd: seq<string>, i: nat)
    requires Wf(s) && i < |s.parts|
  {
    s.parts[i].txid > s.txid ==> s.txid in s.parts[i].log && s.parts[i].log[s.txid] == CommitRequest(s, cmd)
  }

  /** Whoever is ahead of the coordinator has already executed `cmd` as the next transaction. */
  predicate Fits(s: Sys, cmd: seq<string>)
    requires Wf(s)
  {
    forall i {:trigger FitsPart(s, cmd, i)} :: 0 <= i < |s.parts| ==> FitsPart(s, cmd, i)
  }

  predicate Fitting(s: Sys, a: Action)
    requires Wf(s)
  {
    a.StartUpdate? ==> Fits(s, a.cmd)
  }

  /** Every update of the run begins where it fits.  In particular, that is so where nobody is ahead of the
      coordinator. */
  predicate Guarded(s: Sys, run: seq<Action>)
    requires Wf(s) && CanRun(s, run)
    decreases |run|
  {
    run == [] || (Fitting(s, run[0]) && Guarded(Step(s, run[0]), run[1..]))
  }

  lemma RunFirst(s: Sys, a: Action, run: seq<Action>)
    requires Wf(s) && Enabled(s, a) && CanRun(Step(s, a), run)
    ensures CanRun(s, [a] + run) && Run(s, [a] + run) == Run(Step(s, a), run)
    ensures Guarded(s, [a] + run) <==> Fitting(s, a) && Guarded(Step(s, a), run)
  {
    assert ([a] + run)[1..] == run;
  }

  lemma {:induction false} RunMore(s: Sys, run: seq<Action>, a: Action)
    requires Wf(s) && CanRun(s, run) && Enabled(Run(s, run), a)
    ensures CanRun(s, run + [a]) && Run(s, run + [a]) == Step(Run(s, run), a)
    ensures Guarded(s, run + [a]) <==> Guarded(s, run) && Fitting(Run(s, run), a)
    decreases |run|
  {
    if run != [] {
      RunMore(Step(s, run[0]), run[1..], a);
      assert (run + [a])[1..] == run[1..] + [a];
    }
  }

  lemma {:induction false} RunJoin(s: Sys, run: seq<Action>, more: seq<Action>)
    requires Wf(s) && CanRun(s, run) && CanRun(Run(s, run), more)
    ensures CanRun(s, run + more) && Run(s, run + more) == Run(Run(s, run), more)
    ensures Guarded(s, run + more) <==> Guarded(s, run) && Guarded(Run(s, run), more)
    decreases |run|
  {
    if run == [] {
      assert run + more == more;
    } else {
      RunJoin(Step(s, run[0]), run[1..], more);
      assert (run + more)[1..] == run[1..] + more;
    }
  }
}

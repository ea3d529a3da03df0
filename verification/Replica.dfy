/** A participant: its transaction id, its log and its key-value map, and how it answers one message. */
module Replica {
  import opened Kv

  const TXID_START: nat := 5
  const SUPER_TXID: nat := 0
  const RECOVERY_TXID: nat := 1
  const ASK_DATA_TXID: nat := 2

  datatype LogState = INVALID | LOG_PRE | LOG_COMMIT | LOG_ABORT

  /** The event text of a message: empty, a number in decimal, or a command. */
  datatype Event = NoEvent | Number(n: nat) | Command(cmd: seq<string>)

  datatype Log = Log(id: nat, state: LogState, event: Event)

  /** The texts a participant answers with.  `NoReply` is the empty text; `AssertionFailure` stands for
      the failed presence assertion of the log, after which the process is gone. */
  datatype Reply =
    | ErrorReply | OkReply | CountReply(n: nat) | ValueReply(v: string)
    | PreReply | TxidReply(t: nat) | LogReply(l: Log) | NoReply | AssertionFailure

  datatype Part = Part(txid: nat, log: map<nat, Log>, kv: Store)

  const INITIAL: Part := Part(TXID_START, map[], map[])

  /** The character a command is dispatched on: the first of its first word, or NUL. */
  function Initial(cmd: seq<string>): char
    requires cmd != []
  {
    if cmd[0] == "" then '\0' else cmd[0][0]
  }

  /** Executes one event on the map.  Text that is no command array fails the parser's assertion; no such
      event is ever sent to be executed, and here it is refused. */
  function Execute(kv: Store, event: Event): (Store, Reply) {
    if !event.Command? || event.cmd == [] then (kv, ErrorReply)
    else
      var cmd := event.cmd;
      match Initial(cmd)
      case 'D' =>
        var d := DeleteAll(kv, cmd[1..]);
        (d.0, CountReply(d.1))
      case 'S' => if |cmd| != 3 then (kv, ErrorReply) else (kv[cmd[1] := cmd[2]], OkReply)
      case 'G' => if |cmd| != 2 then (kv, ErrorReply) else (kv, ValueReply(Lookup(kv, cmd[1])))
      case 'P' => (kv, PreReply)
      case _ => (kv, ErrorReply)
  }

  /** Whether an event is executed or refused, which the map has no say in. */
  predicate Accepted(event: Event) {
    && event.Command? && event.cmd != []
    && var c := Initial(event.cmd);
       c == 'D' || (c == 'S' && |event.cmd| == 3) || (c == 'G' && |event.cmd| == 2) || c == 'P'
  }

  /** The success of an event depends on the event alone, and a refused event changes nothing; so the
      replay of a log never stalls. */
  lemma ExecuteAccepts(kv: Store, event: Event)
    ensures Execute(kv, event).1 != ErrorReply <==> Accepted(event)
    ensures !Accepted(event) ==> Execute(kv, event).0 == kv
    ensures !Execute(kv, event).1.NoReply? && !Execute(kv, event).1.AssertionFailure?
  {
  }

  /** What serving the command does to the map, and the answer to it.  A command is told by the first character of
      its first word. */
  ghost predicate Serves(kv: Store, cmd: seq<string>, kv2: Store, rc: Reply)
    requires cmd != []
  {
    var c := Initial(cmd);
    if c == 'S' && |cmd| == 3 then kv2 == kv[cmd[1] := cmd[2]] && rc == OkReply
    else if c == 'D' then
      kv2 == kv - (set k | k in cmd[1..]) && rc == CountReply(|kv.Keys * (set k | k in cmd[1..])|)
    else if c == 'G' && |cmd| == 2 then
      kv2 == kv && rc == ValueReply(if cmd[1] in kv then kv[cmd[1]] else "nil")
    else kv2 == kv && rc == if c == 'P' then PreReply else ErrorReply
  }

  lemma ExecuteServes(kv: Store, cmd: seq<string>)
    requires cmd != []
    ensures var e := Execute(kv, Command(cmd)); Serves(kv, cmd, e.0, e.1)
  {
    if Initial(cmd) == 'D' { DeleteAllEffect(kv, cmd[1..]); }
  }

  /** The answer to one message, and the participant after it. */
  function Answer(p: Part, m: Log): (Part, Reply) {
    if m.id == SUPER_TXID then
      var e := Execute(p.kv, m.event);
      (p.(kv := e.0), e.1)
    else if m.id == RECOVERY_TXID then
      (p, if p.txid == 0 then AssertionFailure else TxidReply(p.txid - 1))
    else if m.id == ASK_DATA_TXID then
      var tid := if m.event.Number? then m.event.n else 0;
      (p, if tid >= p.txid then NoReply else if tid in p.log then LogReply(p.log[tid]) else AssertionFailure)
    else if m.id == p.txid && m.state == LOG_PRE then (p, PreReply)
    else if m.id == p.txid && m.state == LOG_COMMIT then
      var e := Execute(p.kv, m.event);
      if e.1 != ErrorReply then (Part(p.txid + 1, p.log[m.id := m], e.0), e.1) else (p.(kv := e.0), e.1)
    else (p, ErrorReply)
  }

  /** The log of one process, kept in memory.  To change an entry, or to look it up, asserts that it is
      there. */
  class Logger {
    var l: map<nat, Log>

    constructor ()
      ensures l == map[]
    {
      l := map[];
    }

    method WriteLog(lg: Log)
      modifies this`l
      ensures l == old(l)[lg.id := lg]
    {
      l := l[lg.id := lg];
    }

    method ChageLogState(id: nat, newState: LogState)
      requires id in l
      modifies this`l
      ensures l == old(l)[id := old(l)[id].(state := newState)]
    {
      l := l[id := l[id].(state := newState)];
    }

    method GetLogByTXID(id: nat) returns (lg: Log)
      requires id in l
      ensures lg == l[id]
    {
      return l[id];
    }
  }

  class Participant {
    var txid: nat
    const lg: Logger
    const kvdb: KV

    function State(): Part
      reads this, lg, kvdb
    {
      Part(txid, lg.l, kvdb.kvdb)
    }

    /** A process that starts has an empty log and an empty map. */
    constructor ()
      ensures State() == INITIAL && fresh(lg) && fresh(kvdb)
    {
      txid := TXID_START;
      lg := new Logger();
      kvdb := new KV();
    }

    method EventParser(event: Event) returns (rstr: Reply)
      modifies kvdb
      ensures (kvdb.kvdb, rstr) == Execute(old(kvdb.kvdb), event)
      ensures if event.Command? && event.cmd != [] then Serves(old(kvdb.kvdb), event.cmd, kvdb.kvdb, rstr)
              else kvdb.kvdb == old(kvdb.kvdb) && rstr == ErrorReply
    {
      rstr := ErrorReply;
      if !event.Command? || |event.cmd| < 1 { return; }
      var comds := event.cmd;
      ExecuteServes(kvdb.kvdb, comds);
      match Initial(comds) {
        case 'D' =>
          comds := comds[1..];
          var delnumber := kvdb.KvDelArry(comds);
          rstr := CountReply(delnumber);
        case 'S' =>
          if |comds| != 3 {
            rstr := ErrorReply;
          } else {
            var rc := kvdb.KvSet(comds[1], comds[2]);
            rstr := OkReply;
          }
        case 'G' =>
          if |comds| != 2 {
            rstr := ErrorReply;
          } else {
            var v := kvdb.KvGet(comds[1]);
            rstr := ValueReply(v);
          }
        case 'P' =>
          rstr := PreReply;
        case _ =>
          rstr := ErrorReply;
      }
    }

    /** Where the presence assertion of the log would fail, the answer says so and the log is not asked. */
    method PWorker(l: Log) returns (rc: Reply)
      modifies this, lg, kvdb
      ensures (State(), rc) == Answer(old(State()), l)
    {
      rc := ErrorReply;
      if l.id == SUPER_TXID {
        rc := EventParser(l.event);
      } else if l.id == RECOVERY_TXID {
        rc := if txid == 0 then AssertionFailure else TxidReply(txid - 1);
      } else if l.id == ASK_DATA_TXID {
        var tid := if l.event.Number? then l.event.n else 0;
        if tid >= txid {
          rc := NoReply;
        } else if tid in lg.l {
          var e := lg.GetLogByTXID(tid);
          rc := LogReply(e);
        } else {
          rc := AssertionFailure;
        }
      } else if l.id == txid && l.state == LOG_PRE {
        rc := PreReply;
      } else if l.id == txid && l.state == LOG_COMMIT {
        rc := EventParser(l.event);
        if rc != ErrorReply {
          lg.WriteLog(l);
          txid := txid + 1;
        }
      }
    }
  }

  // ---- logs and what they mean ----

  /** A committed entry for transaction `t`. */
  predicate EntryOk(e: Log, t: nat) {
    e.id == t && e.state == LOG_COMMIT && Accepted(e.event)
  }

  /** The map that executing the entries before transaction `n` in order gives. */
  function Replay(log: map<nat, Log>, n: nat): Store {
    if n <= TXID_START then map[]
    else if n - 1 in log then Execute(Replay(log, n - 1), log[n - 1].event).0
    else Replay(log, n - 1)
  }

  /** The log holds exactly the transactions before `txid`, and the map is their replay. */
  ghost predicate PartOk(p: Part) {
    && p.txid >= TXID_START
    && (forall t {:trigger t in p.log} :: t in p.log <==> TXID_START <= t < p.txid)
    && (forall t {:trigger p.log[t]} :: t in p.log ==> EntryOk(p.log[t], t))
    && p.kv == Replay(p.log, p.txid)
  }

  lemma {:induction false} ReplaySame(a: map<nat, Log>, b: map<nat, Log>, n: nat)
    requires forall t {:trigger t in a} {:trigger t in b} :: TXID_START <= t < n ==> t in a && t in b && a[t] == b[t]
    ensures Replay(a, n) == Replay(b, n)
  {
    if n > TXID_START {
      ReplaySame(a, b, n - 1);
    }
  }

  /** Answering keeps the participant consistent, whatever the message, unless it is a write sent as a
      plain request or an entry that is not its own id's. */
  lemma AnswerKeepsOk(p: Part, m: Log)
    requires PartOk(p) && (m.id == SUPER_TXID ==> Execute(p.kv, m.event).0 == p.kv)
    ensures PartOk(Answer(p, m).0)
    ensures Answer(p, m).0.txid == p.txid + 1 <==> Answer(p, m).0 != p
    ensures Answer(p, m).0 != p <==> m.id == p.txid && m.state == LOG_COMMIT && Accepted(m.event)
    ensures Answer(p, m).0 != p ==> Answer(p, m).0.log == p.log[m.id := m]
  {
    ExecuteAccepts(p.kv, m.event);
    var q := Answer(p, m).0;
    if m.id == p.txid && m.state == LOG_COMMIT && Accepted(m.event) {
      ReplaySame(p.log, q.log, p.txid);
      assert q.log == p.log[m.id := m] && q.txid == p.txid + 1;
      assert Replay(q.log, q.txid) == Execute(Replay(q.log, p.txid), m.event).0;
    }
  }

  /** A well-formed participant never fails its presence assertion. */
  lemma NoAssertionFails(p: Part, m: Log)
    requires PartOk(p) && (m.id == ASK_DATA_TXID ==> m.event.Number? && m.event.n >= TXID_START)
    ensures Answer(p, m).1 != AssertionFailure
  {
    ExecuteAccepts(p.kv, m.event);
  }
}
